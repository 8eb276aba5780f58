/** Reading the chunks file (crates/termlm-indexer/src/store.rs). */
module ChunksReader {
  import opened Wrappers
  import opened Utf8
  import opened Binary
  import opened Chunks
  import opened Ordering
  import opened Codecs
  import opened EntriesFile
  import opened ChunksFile

  /**
   * What the reader asks of its surroundings: which seconds make a date, what time it is, how malformed text is
   * repaired.
   */
  datatype Host = Host(valid: i64 -> bool, now: Time, repair: Bytes -> string)

  // ---------- the section table ----------

  function TakeSection(host: Host, b: Bytes): Result<(string, Bytes), LoadError> {
    match TakeU32(b)
    case None => Err(Underflow)
    case Some((length, b)) =>
      match TakeBytes(b, length)
      case None => Err(Truncated)
      case Some((name, b)) => Ok((Lossy(host.repair, name), b))
  }

  function TakeSections(host: Host, count: nat, b: Bytes, before: seq<string>): Result<(seq<string>, Bytes),
      LoadError> {
    if count == 0 then Ok((before, b)) else
      match TakeSection(host, b)
      case Err(e) => Err(e)
      case Ok((name, b)) => TakeSections(host, count - 1, b, before + [name])
  }

  lemma {:induction false} SectionsStep(host: Host, n: nat, m: nat, b: Bytes, before: seq<string>, name: string,
      rest: Bytes)
    requires n > 0 && m == n - 1 && TakeSection(host, b) == Ok((name, rest))
    ensures TakeSections(host, n, b, before) == TakeSections(host, m, rest, before + [name])
  {
  }

  // ---------- a record ----------

  function PlaceAt(b: Bytes): Place
    requires |b| == 20
  {
    Place(GetU32(b[0..4]), GetU32(b[4..8]), GetU64(b[8..16]), GetU32(b[16..20]))
  }

  function RankAt(b: Bytes): Rank
    requires |b| == 12
  {
    Rank(GetU32(b[0..4]), GetU32(b[4..8]), b[8] != 0, b[9])
  }

  function StampAt(b: Bytes): Stamp
    requires |b| == 40
  {
    Stamp(GetI64(b[0..8]), b[8..40])
  }

  function TakeRecord(b: Bytes): Option<(Record, Bytes)> {
    if |b| < CHUNK_SIZE then None
    else Some((Record(PlaceAt(b[..20]), RankAt(b[20..32]), StampAt(b[32..72])), b[72..]))
  }

  /** The chunk a live record stands for. */
  function ChunkFrom(host: Host, r: Record, docs: Bytes, entry: Entry, sections: seq<string>): Chunk {
    Chunk(
      entry.name, entry.path, MethodName(r.rank.code),
      if r.place.section < |sections| then sections[r.place.section] else "UNKNOWN",
      r.rank.index, r.rank.total, HashText(r.stamp.hash),
      if host.valid(r.stamp.secs) then Time(r.stamp.secs, 0) else host.now,
      match BlobBytes(docs, r.place.off, r.place.length) case Some(text) => Lossy(host.repair, text) case None => "")
  }

  /** What a record adds to the chunks: nothing for a tombstone. */
  type Restorer = Record -> Result<seq<Chunk>, LoadError>

  function RestorerFor(host: Host, docs: Bytes, entries: seq<Entry>, sections: seq<string>): Restorer {
    (r: Record) =>
      if r.rank.tombstone then Ok([])
      else if r.place.entry >= |entries| then Err(MissingEntry(r.place.entry))
      else Ok([ChunkFrom(host, r, docs, entries[r.place.entry], sections)])
  }

  function TakeChunks(restore: Restorer, count: nat, b: Bytes): Result<seq<Chunk>, LoadError> {
    if count == 0 then Ok([]) else
      match TakeRecord(b)
      case None => Err(Underflow)
      case Some((r, b)) =>
        match restore(r)
        case Err(e) => Err(e)
        case Ok(chunks) =>
          match TakeChunks(restore, count - 1, b)
          case Err(e) => Err(e)
          case Ok(more) => Ok(chunks + more)
  }

  /** The rows, once it is known that there are bytes for all of them. */
  function TakeRows(host: Host, b: Bytes, docs: Bytes, entries: seq<Entry>, sections: seq<string>): Result<seq<Chunk>,
      LoadError> {
    match TakeU32(b)
    case None => Err(Underflow)
    case Some((rows, b)) =>
      if |b| < rows * CHUNK_SIZE then Err(Truncated)
      else TakeChunks(RestorerFor(host, docs, entries, sections), rows, b)
  }

  function ChunksOf(host: Host, raw: Bytes, docs: Bytes, entries: seq<Entry>): Result<seq<Chunk>, LoadError> {
    if |raw| < 12 then Err(TooShort)
    else if raw[..8] != CHUNKS_MAGIC then Err(BadMagic)
    else
      match TakeSections(host, GetU32(raw[8..12]), raw[12..], [])
      case Err(e) => Err(e)
      case Ok((sections, b)) => TakeRows(host, b, docs, entries, sections)
  }

  // ---------- the methods ----------

  method ReadChunks(host: Host, raw: Bytes, docs: Bytes, entries: seq<Entry>) returns (r: Result<seq<Chunk>, LoadError>)
    ensures r == ChunksOf(host, raw, docs, entries)
  {
    if |raw| < 12 {
      return Err(TooShort);
    }
    if raw[..8] != CHUNKS_MAGIC {
      return Err(BadMagic);
    }
    var cursor := new Cursor(raw, 8);
    var sectionCount := cursor.ReadU32();
    assert raw[8..][..4] == raw[8..12] && raw[8..][4..] == raw[12..];
    var sections := ReadSections(host, cursor, sectionCount.value);
    if sections.Err? {
      return Err(sections.error);
    }
    var rows := cursor.ReadU32();
    if rows == None {
      return Err(Underflow);
    }
    if |cursor.Rest()| < rows.value * CHUNK_SIZE {
      return Err(Truncated);
    }
    r := ReadRows(cursor, RestorerFor(host, docs, entries, sections.value), rows.value);
  }

  method ReadSections(host: Host, cursor: Cursor, count: nat) returns (r: Result<seq<string>, LoadError>)
    requires cursor.Valid()
    modifies cursor
    ensures cursor.Valid()
    ensures match TakeSections(host, count, old(cursor.Rest()), [])
      case Ok((sections, rest)) => r == Ok(sections) && cursor.Rest() == rest
      case Err(e) => r == Err(e)
  {
    ghost var all := TakeSections(host, count, cursor.Rest(), []);
    var sections: seq<string> := [];
    ghost var left := count;
    for i := 0 to count
      invariant left == count - i && cursor.Valid() && TakeSections(host, left, cursor.Rest(), sections) == all
    {
      ghost var b, next := cursor.Rest(), left - 1;
      var name := ReadSection(host, cursor);
      if name.Err? {
        return Err(name.error);
      }
      SectionsStep(host, left, next, b, sections, name.value, cursor.Rest());
      left := next;
      sections := sections + [name.value];
    }
    r := Ok(sections);
  }

  method ReadSection(host: Host, cursor: Cursor) returns (r: Result<string, LoadError>)
    requires cursor.Valid()
    modifies cursor
    ensures cursor.Valid()
    ensures match TakeSection(host, old(cursor.Rest()))
      case Ok((name, rest)) => r == Ok(name) && cursor.Rest() == rest
      case Err(e) => r == Err(e)
  {
    var length := cursor.ReadU32();
    if length == None {
      return Err(Underflow);
    }
    var name := cursor.ReadBytes(length.value);
    if name == None {
      return Err(Truncated);
    }
    r := Ok(Lossy(host.repair, name.value));
  }

  /** What all rows come to, from what is out and what the rest come to. */
  ghost predicate IsRest(all: Result<seq<Chunk>, LoadError>, out: seq<Chunk>, rest: Result<seq<Chunk>, LoadError>) {
    match rest
    case Ok(more) => all == Ok(out + more)
    case Err(e) => all == Err(e)
  }

  lemma {:induction false} RestNext(all: Result<seq<Chunk>, LoadError>, out: seq<Chunk>, restore: Restorer, left: nat,
      next: nat, b: Bytes, r: Record, rest: Bytes)
    requires left > 0 && next == left - 1 && TakeRecord(b) == Some((r, rest)) && restore(r).Ok? &&
      IsRest(all, out, TakeChunks(restore, left, b))
    ensures IsRest(all, out + restore(r).value, TakeChunks(restore, next, rest))
  {
    var chunks := restore(r).value;
    var later := TakeChunks(restore, next, rest);
    if later.Ok? { assert (out + chunks) + later.value == out + (chunks + later.value); }
  }

  method ReadRows(cursor: Cursor, restore: Restorer, count: nat) returns (r: Result<seq<Chunk>, LoadError>)
    requires cursor.Valid()
    modifies cursor
    ensures r == TakeChunks(restore, count, old(cursor.Rest()))
  {
    ghost var all := TakeChunks(restore, count, cursor.Rest());
    var out: seq<Chunk> := [];
    assert forall more: seq<Chunk> :: [] + more == more;
    ghost var left := count;
    for i := 0 to count
      invariant left == count - i && cursor.Valid()
      invariant IsRest(all, out, TakeChunks(restore, left, cursor.Rest()))
    {
      ghost var b := cursor.Rest();
      var record := ReadRecord(cursor);
      if record == None {
        return Err(Underflow);
      }
      var chunks := restore(record.value);
      if chunks.Err? {
        return Err(chunks.error);
      }
      ghost var next := left - 1;
      RestNext(all, out, restore, left, next, b, record.value, cursor.Rest());
      left := next;
      out := out + chunks.value;
    }
    assert out + [] == out;
    r := Ok(out);
  }

  method ReadRecord(cursor: Cursor) returns (r: Option<Record>)
    requires cursor.Valid()
    modifies cursor
    ensures cursor.Valid()
    ensures match TakeRecord(old(cursor.Rest()))
      case Some((record, rest)) => r == Some(record) && cursor.Rest() == rest
      case None => r == None
  {
    ghost var b := cursor.Rest();
    var place := ReadPlace(cursor);
    if place == None {
      return None;
    }
    var rank := ReadRank(cursor);
    if rank == None {
      return None;
    }
    var stamp := ReadStamp(cursor);
    if stamp == None {
      return None;
    }
    assert b[20..][..12] == b[20..32] && b[20..][12..] == b[32..];
    assert b[32..][..40] == b[32..72] && b[32..][40..] == b[72..];
    r := Some(Record(place.value, rank.value, stamp.value));
  }

  method ReadPlace(cursor: Cursor) returns (r: Option<Place>)
    requires cursor.Valid()
    modifies cursor
    ensures cursor.Valid()
    ensures var b := old(cursor.Rest());
      if |b| < 20 then r == None else r == Some(PlaceAt(b[..20])) && cursor.Rest() == b[20..]
  {
    ghost var b := cursor.Rest();
    var entry := cursor.ReadU32();
    if entry == None {
      return None;
    }
    var section := cursor.ReadU32();
    if section == None {
      return None;
    }
    var off := cursor.ReadU64();
    if off == None {
      return None;
    }
    var length := cursor.ReadU32();
    if length == None {
      return None;
    }
    PlaceFields(b);
    r := Some(Place(entry.value, section.value, off.value, length.value));
  }

  lemma {:induction false} PlaceFields(b: Bytes)
    requires |b| >= 20
    ensures PlaceAt(b[..20]) ==
      Place(GetU32(b[..4]), GetU32(b[4..][..4]), GetU64(b[4..][4..][..8]), GetU32(b[4..][4..][8..][..4]))
    ensures b[4..][4..][8..][4..] == b[20..]
  {
    var p := b[..20];
    assert p[0..4] == b[..4] && p[4..8] == b[4..8] && p[8..16] == b[8..16] && p[16..20] == b[16..20];
    assert b[4..][..4] == b[4..8] && b[4..][4..] == b[8..];
    assert b[8..][..8] == b[8..16] && b[8..][8..] == b[16..];
    assert b[16..][..4] == b[16..20];
  }

  method ReadRank(cursor: Cursor) returns (r: Option<Rank>)
    requires cursor.Valid()
    modifies cursor
    ensures cursor.Valid()
    ensures var b := old(cursor.Rest());
      if |b| < 12 then r == None else r == Some(RankAt(b[..12])) && cursor.Rest() == b[12..]
  {
    ghost var b := cursor.Rest();
    var index := cursor.ReadU32();
    if index == None {
      return None;
    }
    var total := cursor.ReadU32();
    if total == None {
      return None;
    }
    var tombstone := cursor.ReadU8();
    if tombstone == None {
      return None;
    }
    var code := cursor.ReadU8();
    if code == None {
      return None;
    }
    var reserved := cursor.ReadBytes(2);
    if reserved == None {
      return None;
    }
    RankFields(b);
    r := Some(Rank(index.value, total.value, tombstone.value != 0, code.value));
  }

  lemma {:induction false} RankFields(b: Bytes)
    requires |b| >= 12
    ensures RankAt(b[..12]) == Rank(GetU32(b[..4]), GetU32(b[4..][..4]), b[4..][4..][0] != 0, b[4..][4..][1..][0])
    ensures b[4..][4..][1..][1..][2..] == b[12..]
  {
    assert b[..12][0..4] == b[..4] && b[..12][4..8] == b[4..8];
    assert b[4..][..4] == b[4..8] && b[4..][4..] == b[8..];
  }

  method ReadStamp(cursor: Cursor) returns (r: Option<Stamp>)
    requires cursor.Valid()
    modifies cursor
    ensures cursor.Valid()
    ensures var b := old(cursor.Rest());
      if |b| < 40 then r == None else r == Some(StampAt(b[..40])) && cursor.Rest() == b[40..]
  {
    ghost var b := cursor.Rest();
    var secs := cursor.ReadI64();
    if secs == None {
      return None;
    }
    var hash := cursor.ReadBytes(32);
    if hash == None {
      return None;
    }
    assert b[..40][0..8] == b[..8] && b[..40][8..40] == b[8..40];
    assert b[8..][..32] == b[8..40] && b[8..][32..] == b[40..];
    r := Some(Stamp(secs.value, hash.value));
  }
}

/** The chunk of command documentation that every part of the indexer passes on (crates/termlm-indexer/src/chunk.rs). */
module Chunks {
  import opened Binary

  /** A `DateTime<Utc>`: whole seconds since the epoch, and nanoseconds. */
  datatype Time = Time(secs: i64, nanos: nat)

  datatype Chunk = Chunk(
    commandName: string,
    path: string,
    extractionMethod: string,
    sectionName: string,
    chunkIndex: nat,
    totalChunks: nat,
    docHash: string,
    extractedAt: Time,
    text: string
  )
}

# termlm: the deterministic core, modelled and proved

termlm turns requests in plain language into shell commands. It indexes the documentation of the
commands on a machine, searches that index, talks to a local or remote model, reads tool calls out of
the model's text, checks shell commands before they run, and keeps fetched web pages in a cache. This
project models the algorithms behind those steps in Dafny and proves what they are for.

Each module follows one part of the program:

| module | part |
|---|---|
| `Binary`, `Codecs`, `EntriesFile`, `ChunksFile`, `ChunksReader`, `Layout` | the on-disk index: writers, readers, and what a round trip keeps |
| `LexiconFile` | the lexicon and postings files |
| `FileFormat` | the bytes of those files, offset by offset |
| `EntryRanges` | what the offset and length of an entry say of the texts of its path |
| `Lexical`, `Retrieve`, `Answers` | the inverted index and hybrid top-k retrieval |
| `Reload` | searching an index that was written and loaded |
| `EditDistance` | Levenshtein distance and name suggestions |
| `Chunker`, `ChunkText` (with `Chunks`) | cutting a document into sections and chunks |
| `OllamaStream`, `CancelProtocol` | the streaming task, and many tasks with a concurrent `cancel` |
| `ToolTags`, `ToolCalls` | tool calls between tags |
| `ShellScan`, `ShellTokens` | the shell scanner |
| `Markdown`, `Prose` | the markdown normaliser |
| `WebCache` | the byte-budgeted LRU cache |
| `LlamaWindow`, `PromptBudget` | context window and prompt budget arithmetic |
| `StdoutOrder` | the ordered-output check of the test harness |
| `Wrappers`, `Ordering`, `Runs`, `Text`, `Utf8` | results, sorting, maximal stretches, string operations and UTF-8 (RFC 3629, section 3) |

Code that changes state step by step is written as methods and classes with loops, each proved equal to
a function of its inputs; what the program promises is proved about that function. What such a function gives is
in turn stated without it, over the characters, bytes, rows or records of the input.

What is taken from outside stands as a parameter: `ln` and `ln_1p`, `char::is_alphanumeric`, the JSON
decoder of a stream line, the repair of malformed UTF-8, vector scores, whether the model accepts a
batch, which timestamps are dates, and the clock. Nothing is assumed of them but what a `requires` says; of the logarithms, where anything is, that `ln` grows
and is zero at one and `ln_1p` is not negative (`Lexical.AreLogs`).

## What the proofs found

Some promises hold only under a condition; each is stated with the exact condition or a concrete input.

- The index loaded from its files answers as the one in memory exactly when every chunk has a token, or
  none has: the loader learns the document ids from the postings only (`LexiconFile.LoadedIndexAgrees`, and
  `Reload.ReloadedRetrieverAgrees` for the answers of the whole retriever).
- A count above 32 bits is written cut, so the files then bring back only some tokens
  (`LexiconFile.FilesHoldThePostings`) or entries (`EntriesFile.EntriesSurvive`).
- A hash survives exactly when it is empty or 64 lowercase digits that are not all zero
  (`Codecs.HashRoundTrip`); a hash of 64 bytes or more in which one of the first 32 pairs of bytes cuts a
  character makes the writer panic, which the model has as an error (`Codecs.HashPanics`,
  `Codecs.AccentedHashPanics`, and `Layout.LayoutIsWritten` for all that stops the writer).
- With vectors on, the candidates of the inverted index lose rows that a full scan would return
  (`Retrieve.SettingsThatPruneSafely`).
- Stream chunks are decoded one by one, so a chunk that ends inside a character changes the text
  (`OllamaStream.CutsMustBeAtCharacters`, `OllamaStream.SplitCharacterIsLost`).
- Two runs under one task id: the first to end takes the id out of the map, and a cancel then reaches
  nobody (`CancelProtocol.SharedIdLosesCancel`); exactly when a cancel reaches a run is
  `CancelProtocol.CancelFindsTheRun`. A request that fails before its task is spawned leaves its id in the
  map (`CancelProtocol.FailedRequestLeavesItsId`, and `CancelProtocol.IdIsLeftBehind` without any condition).
- The context window can be overrun when the model's context has no room for one prompt token, the
  answer and the spare positions (`LlamaWindow.WindowHoldsPromptAndAnswer` is an if-and-only-if).
- The brace scan of an untagged tool call skips as many characters as the name has bytes, so it starts
  at the brace exactly when the name is ASCII (`ToolTags.ScanStartsAtBrace`). When it still takes the right
  block is `ToolTags.BalancedBlockIsMatched`; `ToolTags.AccentedNameIsCutShort` is a call it cuts short.
- Normalising markdown twice changes the text exactly when a fenced line that ended in two carriage
  returns is followed by a line that is written (`Markdown.MarkdownTwice`, `Markdown.FencedReturnIsLost`).
- An operator at the end of a command is not seen when whitespace follows it, unless the command has no token at all
  (`ShellTokens.TrailingExplained`).
- Text without any heading is dropped by the section split (`Chunker.SectionsConserveText`), and a blank
  paragraph before the last leaves an empty part at some limit (`Chunker.EmptyPart`); at which limits is
  `Chunker.EmptyPartAt`.
- The range of an entry covers the texts of its path exactly when no text of another path stands between them
  (`EntryRanges.RangeCoversTexts`).
- A time to live of more than 9_223_372_036_854_775 seconds turns the cache off (`WebCache.LongTtlTurnsCacheOff`,
  an if-and-only-if over all 64-bit numbers). Up to the largest signed number, which is as far as a configuration
  value goes (crates/termlm-config/src/lib.rs:1049-1056), the first lookup of an entry panics
  (`WebCache.LookupPanics`, `WebCache.LeastPanickingTtl`); beyond it the number wraps to a negative one, which
  panics too or expires everything at once (`WebCache.WrappedTtlExpiresAtOnce`). So an inserted body can be read
  back at once exactly when it fits and the time to live is no longer than that (`WebCache.ReadBackAtOnce`).

## Model

| member | source | states |
|---|---|---|
| EditDistance.Levenshtein | crates/termlm-indexer/src/lookup.rs:86-103 | the in-place one-row loop returns the recursive distance `Dist` |
| EditDistance.DistCountsEdits | crates/termlm-indexer/src/lookup.rs:86-103 | `Dist` is the least number of insertions, deletions and replacements: some editing has that many, none fewer |
| EditDistance.DistIsAMetric | crates/termlm-indexer/src/lookup.rs:86-103 | zero exactly on equal strings, symmetric, triangle inequality |
| EditDistance.SuggestionsAreNearest | crates/termlm-indexer/src/lookup.rs:77-84 | the suggestions are distinct names ranked by distance then name, `limit` of them or all, and no name left out ranks before one returned |
| WebCache.WebCache.Get | crates/termlm-web/src/cache.rs:31-42 | on the recency list: a hit moves the item to the end, an expired item is removed, the result is the fresh body; a time to live that is no duration panics and changes nothing |
| WebCache.WebCache.Insert | crates/termlm-web/src/cache.rs:44-69 | on the recency list: replace, append, evict oldest while over budget; table, order and running total stay in agreement with the list |
| WebCache.WebCache.Touch | crates/termlm-web/src/cache.rs:71-74 | the key leaves its place in the order and goes to the end |
| WebCache.EvictKeepsLongestFit | crates/termlm-web/src/cache.rs:62-68 | what survives is the longest most-recent suffix that fits: a suffix fits exactly when it is no longer |
| WebCache.EveryRun | crates/termlm-web/src/cache.rs:31-82 | after every run no key is twice, the total is within the budget, items are last insertions in order of last use; a lookup that panics is no use |
| WebCache.LookupAfterRun | crates/termlm-web/src/cache.rs:31-69 | after any run a lookup hits exactly when the key was inserted, not dropped since, and its last insertion is not older than the time to live, and then gives that body; it panics exactly when the key is there and the time to live is no duration |
| WebCache.StepKeeps | crates/termlm-web/src/cache.rs:31-69 | an operation leaves a key in the cache exactly when it was there or is inserted, and it neither expires in its own lookup nor is left without room by a new body and all items used after it |
| WebCache.InsertedIsReadBack | crates/termlm-web/src/cache.rs:31-69 | an inserted body is read back exactly when it fits the budget and the time to live is a duration not yet over |
| WebCache.ReadBackAtOnce | crates/termlm-web/src/cache.rs:21-69 | at once, exactly when it fits and the time to live is at most the longest duration |
| WebCache.LookupPanics | crates/termlm-web/src/cache.rs:21-42 | a lookup panics exactly when the key is there and the time to live as a signed number is outside the range of a duration |
| WebCache.LeastPanickingTtl | crates/termlm-web/src/cache.rs:21-42 | 9_223_372_036_854_776 seconds: whatever fits is inserted, and its lookup panics |
| WebCache.LongTtlTurnsCacheOff | crates/termlm-web/src/cache.rs:21-42 | no lookup ever hits exactly when the time to live is longer than the longest duration |
| WebCache.WrappedTtlExpiresAtOnce | crates/termlm-web/src/cache.rs:21-42 | a time to live that wraps to a negative duration removes whatever is looked up |
| WebCache.WithoutKey | crates/termlm-web/src/cache.rs:71-82 | removing a key from list, order, table and total is one operation |
| Lexical.LexicalIndex.Insert | crates/termlm-indexer/src/lexical.rs:18-23 | the postings stand for one document more with the tokens of the text |
| Lexical.LexicalIndex.FromPostings | crates/termlm-indexer/src/lexical.rs:10-16 | the ids are those that occur in some posting list |
| Lexical.LexicalIndex.Search | crates/termlm-indexer/src/lexical.rs:25-66 | the hits are the documents that share a token, each once with the score of a per-document recount, by score then id; `Lexical.FoundByWord` says which these are |
| Lexical.RankingExists | crates/termlm-indexer/src/lexical.rs:25-66 | the full scan has an answer for every index and query |
| Lexical.RankingIsUnique | crates/termlm-indexer/src/lexical.rs:25-66 | and only one, so `Search` is that scan |
| Lexical.RebuiltSearchesAgree | crates/termlm-indexer/src/lexical.rs:10-16 | for any logarithm that grows and is zero at one: an index rebuilt from postings answers every query text alike exactly when every document has a token, or none has |
| Lexical.TokenizeJoined | crates/termlm-indexer/src/lexical.rs:69-75 | text joined by a separator has the tokens of both sides in order |
| Lexical.TokenizeMeans | crates/termlm-indexer/src/lexical.rs:69-75 | the tokens are all maximal stretches of letters, digits, dashes and underscores, in order and in lower case |
| Lexical.TokensIgnoreCase | crates/termlm-indexer/src/lexical.rs:69-75 | texts that differ in case only have the same tokens, when the classification of characters does not depend on case |
| Lexical.FoundByWord | crates/termlm-indexer/src/lexical.rs:18-66 | a search finds exactly the documents with a text that has a word in common with the query, whatever the case of its letters |
| Lexical.RepeatedScore | crates/termlm-indexer/src/lexical.rs:33-57 | the score for one word said any number of times, as the formula of the number of documents, those that hold it, and the times |
| Lexical.RareTermsWeighMore | crates/termlm-indexer/src/lexical.rs:39-45 | the fewer documents hold a term, the more it weighs, and always something |
| Lexical.RarerTermFirst | crates/termlm-indexer/src/lexical.rs:25-66 | of two documents that hold one query term each, the one with the rarer term comes first |
| Lexical.RepeatedTermsWeighMore | crates/termlm-indexer/src/lexical.rs:41-45 | saying a term again raises the score, when `ln_1p` grows |
| Runs.RunsAreUnique | crates/termlm-indexer/src/lexical.rs:69-75 | a text has one list of maximal stretches |
| Retrieve.HybridRetriever.constructor | crates/termlm-indexer/src/retrieve.rs:93-107 | the index holds text, command name and section name of each row, inserted in turn |
| Retrieve.HybridRetriever.SearchWithEmbedding | crates/termlm-indexer/src/retrieve.rs:200-293 | the result is the top-k of the candidates that reach the minimum score, by score, command name and row |
| Retrieve.SortedPrefixIsTopK | crates/termlm-indexer/src/retrieve.rs:285-292 | the stable sort cut at k is a true top-k: sorted, min(k, passing) long, no omitted row ahead of a returned one |
| Answers.AnswerMeans | crates/termlm-indexer/src/retrieve.rs:200-293 | every answer row by row: which rows are rated, the score of each as lexical hit, vector and three boosts, the order, and that a row left out comes after all and only for want of room |
| Answers.BoostMeans | crates/termlm-indexer/src/retrieve.rs:256-274 | the command boost for a name among the tokens, the section boost for options, synopsis and examples, the flag boost for a token with a dash that stands in the text |
| Retrieve.AnswerIsUnique | crates/termlm-indexer/src/retrieve.rs:200-293 | index, query, rows and vector scores leave one possible answer |
| Retrieve.TopKIsUnique | crates/termlm-indexer/src/retrieve.rs:285-292 | there is only one top-k |
| Retrieve.WhatPruningLoses | crates/termlm-indexer/src/retrieve.rs:221-283 | without a cap, scoring candidates only loses nothing exactly when no row without a shared token reaches the minimum (or nothing was found and vectors are on) |
| Retrieve.SettingsThatPruneSafely | crates/termlm-indexer/src/retrieve.rs:221-283 | which settings prune safely whatever the rows and vector scores, with the index built from the rows and the tokens of the query: without vectors a positive minimum, with vectors only a query without tokens |
| LexiconFile.WriteLexicalBins | crates/termlm-indexer/src/store.rs:421-469 | both files as a function of the chunks, or an error when a number does not fit its field |
| LexiconFile.ReadLexicalPostings | crates/termlm-indexer/src/store.rs:664-741 | the reader with all its error cases is the function `PostingsOf` of the two files |
| LexiconFile.FilesRoundTrip | crates/termlm-indexer/src/store.rs:421-469 | reading what was written gives each token the set of its rows, for as many tokens as a 32-bit count tells |
| LexiconFile.JoinedWords | crates/termlm-indexer/src/store.rs:424-432 | the joined text has a token exactly when text, command name or section name has it |
| Retrieve.InsertedWords | crates/termlm-indexer/src/retrieve.rs:95-99 | inserting the three parts one by one posts a row under exactly the tokens of each |
| LexiconFile.FilesHoldThePostings | crates/termlm-indexer/src/store.rs:664-741 | the loaded postings are those of inserting the chunks exactly when the number of tokens fits 32 bits |
| LexiconFile.LoadedIndexAgrees | crates/termlm-indexer/src/store.rs:112-124 | for any logarithm that grows and is zero at one: the loaded index answers every query text as the one in memory exactly when every chunk has a token, or none has |
| Reload.LoadedAnswersAgree | crates/termlm-indexer/src/retrieve.rs:109-111 | for any logarithm that grows and is zero at one: over the same chunks, the retriever with the loaded index answers every query and any vector scores as the one built in memory exactly when every chunk has a token, or none has |
| Reload.ReloadedRetrieverAgrees | crates/termlm-indexer/src/store.rs:112-124 | the same for the loaded chunks, when each chunk survives the layout |
| Reload.BestExists | crates/termlm-indexer/src/retrieve.rs:285-292 | whatever rows are candidates, there is a top-k of those that pass |
| EntriesFile.BuildPathCatalog | crates/termlm-indexer/src/store.rs:254-266 | blob and offsets as a function of the entries, or an overflow |
| EntriesFile.CatalogHolds | crates/termlm-indexer/src/store.rs:254-266 | the bytes of every entry's path are where the catalog says, also for repeated paths |
| EntriesFile.BuildEntryStats | crates/termlm-indexer/src/store.rs:268-287 | the per-path chunk statistics as a function of the chunks |
| EntriesFile.WriteEntriesBin | crates/termlm-indexer/src/store.rs:294-323 | the entries file: header, then a 60-byte record for each entry |
| EntriesFile.ReadEntries | crates/termlm-indexer/src/store.rs:545-588 | the reader with its error cases, by fixed offsets |
| EntriesFile.EntriesRoundTrip | crates/termlm-indexer/src/store.rs:545-588 | entries come back in order, named after their paths, as many as a 32-bit count tells |
| EntriesFile.EntriesSurvive | crates/termlm-indexer/src/store.rs:545-588 | they come back unchanged exactly when the count fits and each is named after its path |
| ChunksFile.NumberSections | crates/termlm-indexer/src/store.rs:339-345 | section names are numbered in order of first use, or there are too many |
| ChunksFile.ListSections | crates/termlm-indexer/src/store.rs:346-351 | the table lists the names by their numbers |
| FileFormat.SectionsByFirstUse | crates/termlm-indexer/src/store.rs:339-345 | the names are in the order of the first chunk that has each |
| ChunksFile.EntryIdsHold | crates/termlm-indexer/src/store.rs:353-357 | a path has a row number exactly when it is an entry's, and that row has the path |
| ChunksFile.WriteChunksBin | crates/termlm-indexer/src/store.rs:333-419 | the chunks file: section table, live records, tombstones; or the first error |
| ChunksReader.ReadChunks | crates/termlm-indexer/src/store.rs:590-662 | the reader with all its error cases, tombstones passed over |
| ChunksReader.ReadRecord | crates/termlm-indexer/src/store.rs:619-633 | one 72-byte record read through the cursor |
| Layout.RecordBack | crates/termlm-indexer/src/store.rs:384-395 | a record is read back from its bytes whatever follows |
| Layout.DocsPrefix | crates/termlm-indexer/src/store.rs:325-331 | the text of every chunk is in the docs file at the total length of the texts before it |
| Layout.StatsLocateTexts | crates/termlm-indexer/src/store.rs:268-287 | for a path whose chunks stand together, its entry has their number, the row of the first, and where the docs file holds their texts (for every other path see `EntryRanges.RangeCoversTexts`) |
| EntryRanges.RangeCoversTexts | crates/termlm-indexer/src/store.rs:268-287 | for every path: offset and length in its entry cover all its texts exactly when no text of another path stands between them, and then the range holds these texts and nothing else |
| EntryRanges.StatsAreRange | crates/termlm-indexer/src/store.rs:268-287 | the length is that of the path's texts together, the offset is where the first of them with any text is |
| Layout.WriteLayoutArtifacts | crates/termlm-indexer/src/store.rs:126-138 | the four files of a layout, or the first error |
| Layout.LayoutIsWritten | crates/termlm-indexer/src/store.rs:126-138 | a layout is written exactly when paths, section names and chunks fit their fields and no hash panics |
| Layout.LoadChunks | crates/termlm-indexer/src/store.rs:178-185 | entries, then chunks against them |
| Layout.LayoutRoundTrip | crates/termlm-indexer/src/store.rs:590-662 | a written layout loads every live chunk in order and no tombstone, or fails when some path is no entry's |
| Layout.LayoutSurvives | crates/termlm-indexer/src/store.rs:590-662 | all chunks come back unchanged exactly when each is of an entry, named after its path, with a known method, a proper hash and whole seconds |
| FileFormat.EntryStands | crates/termlm-indexer/src/store.rs:294-323 | the 60 bytes of each entry in the file: where its path is in the paths file, its metadata, and what its chunks come to |
| FileFormat.EntryIsLaidOut | crates/termlm-indexer/src/store.rs:312-320 | the fields of an entry, offset by offset |
| FileFormat.RecordIsLaidOut | crates/termlm-indexer/src/store.rs:384-395 | the fields of a chunk record, offset by offset |
| FileFormat.TokenIsLaidOut | crates/termlm-indexer/src/store.rs:459-464 | the fields of a lexicon record, offset by offset |
| FileFormat.PostingsAreLaidOut | crates/termlm-indexer/src/store.rs:450-455 | a count, and each row at its place |
| FileFormat.PostingsCountUses | crates/termlm-indexer/src/store.rs:424-433 | a token lists each row as often as the row has it, in the order of the rows |
| FileFormat.MagicsAreText | crates/termlm-indexer/src/store.rs:50-53 | the four kinds of file begin with TLM, a letter and the version |
| FileFormat.HeaderIsLaidOut | crates/termlm-indexer/src/store.rs:299-300 | the magic bytes, then the count |
| FileFormat.FourBytes | crates/termlm-indexer/src/store.rs:765-772 | four bytes spell a number, the low one first |
| FileFormat.EightBytes | crates/termlm-indexer/src/store.rs:774-781 | so do eight |
| FileFormat.SignedBytes | crates/termlm-indexer/src/store.rs:783-790 | a negative number is written in two's complement |
| Codecs.MethodRoundTrip | crates/termlm-indexer/src/store.rs:836-862 | an extraction method survives exactly when it is the name of some code |
| FileFormat.MethodCodes | crates/termlm-indexer/src/store.rs:836-862 | the code of every method |
| FileFormat.HexPairMeans | crates/termlm-indexer/src/store.rs:810-822 | two hexadecimal digits in either case are their number, a plus sign and a digit the digit, all else zero |
| Codecs.DecodeDocHash | crates/termlm-indexer/src/store.rs:810-822 | the loop over digit pairs, with the panic where a pair would cut a character |
| Codecs.HashPanics | crates/termlm-indexer/src/store.rs:810-822 | reading a hash panics exactly when it has 64 bytes or more and one of the first 32 pairs of bytes cuts a character |
| Codecs.AccentedHashPanics | crates/termlm-indexer/src/store.rs:810-822 | a hash that does |
| Codecs.HashRoundTrip | crates/termlm-indexer/src/store.rs:810-834 | a hash survives exactly when empty or 64 lowercase digits not all zero |
| Codecs.NameOfJoined | crates/termlm-indexer/src/store.rs:743-749 | a path that ends in a proper file name gives that name |
| FileFormat.NameOfEnding | crates/termlm-indexer/src/store.rs:743-749 | a slash or a dot at the end does not count, and after two dots the name is the path |
| Binary.TakeU32Back | crates/termlm-indexer/src/store.rs:765-772 | a 32-bit number is read back cut to 32 bits, with the rest untouched |
| Binary.TakeI64Back | crates/termlm-indexer/src/store.rs:783-790 | a signed 64-bit number is read back |
| Binary.Cursor.ReadBytes | crates/termlm-indexer/src/store.rs:801-808 | the cursor moves past the bytes it returns, and stays on underflow |
| Chunker.SplitSections | crates/termlm-indexer/src/chunk.rs:606-633 | the loop is the recursive section split |
| Chunker.SectionsConserveText | crates/termlm-indexer/src/chunk.rs:606-633 | one section for each heading, and no ink of a non-heading line is lost exactly when there is a heading or no such ink |
| Chunker.SectionsAreGroups | crates/termlm-indexer/src/chunk.rs:606-633 | each section is its heading and the lines up to the next; the preamble joins the first |
| ChunkText.SectionsHaveTitles | crates/termlm-indexer/src/chunk.rs:606-633 | a section for each line that begins with no space and has no small ASCII letter, named after it |
| ChunkText.UntitledDocument | crates/termlm-indexer/src/chunk.rs:36-42 | a document without such a line has one section, which says that there is nothing |
| ChunkText.NamedMeans | crates/termlm-indexer/src/chunk.rs:45-50 | the section that goes first is called NAME in any case |
| Chunker.SplitSentences | crates/termlm-indexer/src/chunk.rs:662-679 | the loop is the recursive sentence split |
| Chunker.SplitLargeText | crates/termlm-indexer/src/chunk.rs:635-660 | the nested loops are the recursive packing of paragraphs and sentences |
| ChunkText.ParagraphsMean | crates/termlm-indexer/src/chunk.rs:639 | the text is cut at each blank line, as early as can be |
| ChunkText.SentencesMean | crates/termlm-indexer/src/chunk.rs:662-680 | a paragraph is cut after each full stop, exclamation mark, question mark and semicolon; what follows the last is a sentence if it is not blank |
| ChunkText.PartsMean | crates/termlm-indexer/src/chunk.rs:639-645 | the parts are the paragraphs that fit and the sentences of those that do not |
| Chunker.SplitConservesText | crates/termlm-indexer/src/chunk.rs:635-679 | ignoring whitespace, the parts concatenate to the text |
| Chunker.SplitBoundsLength | crates/termlm-indexer/src/chunk.rs:635-679 | each part is within the limit, or is one of the sentences of a paragraph that is longer than the limit |
| Chunker.BytesAreAMeasure | crates/termlm-indexer/src/chunk.rs:648-652 | the byte length is a measure the bound applies to |
| Chunker.EmptyPart | crates/termlm-indexer/src/chunk.rs:635-660 | for text that does not end in whitespace: some limit gives an empty part exactly when a paragraph before the last is blank |
| Chunker.EmptyChunk | crates/termlm-indexer/src/chunk.rs:54-62 | some limit gives a section of a document an empty chunk exactly when its body is empty or has a blank paragraph before the last |
| Chunker.SplitIsFilling | crates/termlm-indexer/src/chunk.rs:635-660 | the parts are the one way to fill groups in order, each taking as many as fit, and what is put out is each group trimmed, but for a blank last one |
| Chunker.FilledOneWay | crates/termlm-indexer/src/chunk.rs:635-660 | there is only one such filling |
| Chunker.EmptyPartAt | crates/termlm-indexer/src/chunk.rs:635-660 | a given limit gives an empty part exactly when a group before the last holds blank parts only |
| Chunker.BlankTailVanishes | crates/termlm-indexer/src/chunk.rs:635-660 | text that ends in whitespace is different: inputs with a blank paragraph before the last and no empty part at any limit |
| Chunker.BodiesEndInInk | crates/termlm-indexer/src/chunk.rs:616-630 | the bodies that are split never end in whitespace |
| Chunker.ChunkDocument | crates/termlm-indexer/src/chunk.rs:35-82 | the chunks of a document, numbered, NAME sections first |
| Chunker.ChunksHoldDocument | crates/termlm-indexer/src/chunk.rs:35-82 | each section in turn is cut into chunks of its name that hold all its ink and are within the limit or sentences of too long a paragraph; NAME sections first, then the others, each in document order |
| ChunkText.SectionChunksMean | crates/termlm-indexer/src/chunk.rs:53-62 | a section that fits is one chunk, any other is cut into its parts |
| ChunkText.ChunksMean | crates/termlm-indexer/src/chunk.rs:64-80 | number, count, section, text and origin of every chunk |
| Chunker.NamesMoveToFront | crates/termlm-indexer/src/chunk.rs:44-51 | the stable sort is the NAME sections followed by the others, both in the order they had |
| OllamaStream.OllamaProvider.ParseLine | crates/termlm-inference/src/ollama.rs:299-306 | blank lines are passed over, the rest are decoded into events and whether the record says done, as `OllamaStream.OutcomeMeans` has it |
| OllamaStream.OllamaProvider.PushEvents | crates/termlm-inference/src/ollama.rs:255-297 | the events of a record in order, and whether it said done; or its error |
| OllamaStream.OllamaProvider.DrainBuffer | crates/termlm-inference/src/ollama.rs:486-513 | the inner loop takes every complete line until one ends the task or the receiver is closed |
| OllamaStream.OllamaProvider.StreamTask | crates/termlm-inference/src/ollama.rs:467-566 | what is sent is the items of the run, as far as the receiver stays open, and the task's id is out of the map on every exit |
| OllamaStream.SmoothRunIsJudge | crates/termlm-inference/src/ollama.rs:467-566 | without cancel or read error the items are the verdict on the lines of the whole text |
| OllamaStream.ChunkInvariance | crates/termlm-inference/src/ollama.rs:467-547 | streams of the same bytes cut at character boundaries give the same items |
| OllamaStream.CutsMustBeAtCharacters | crates/termlm-inference/src/ollama.rs:485-486 | the text arrives unchanged exactly when every cut is between characters |
| OllamaStream.SplitCharacterIsLost | crates/termlm-inference/src/ollama.rs:485-486 | a stream of two chunks, one byte each, whose character does not arrive |
| OllamaStream.JudgeMeans | crates/termlm-inference/src/ollama.rs:487-563 | the verdict: all events up to the first failing line, then its failure, or Done if some line said so, or an early end |
| OllamaStream.RunProtocol | crates/termlm-inference/src/ollama.rs:467-566 | every run sends one terminal item, last; it is Done exactly when no cancel, read or line failed and some line said done |
| OllamaStream.DecodedRunProtocol | crates/termlm-inference/src/ollama.rs:467-566 | for any JSON decoder: what is sent is the events of the records in order, then the reason of the first bad line, a cancel or read error, Done exactly when all is well and some record has done true, or an early end |
| OllamaStream.OutcomeMeans | crates/termlm-inference/src/ollama.rs:255-306 | a line is blank, or cannot be decoded, or has an error, or gives the events of its record and says done exactly when the record does |
| OllamaStream.EventsAreThose | crates/termlm-inference/src/ollama.rs:255-297 | the events of a record are its thinking, its text, every tool call in order, and the two counts of the last one |
| OllamaStream.DisturbedRun | crates/termlm-inference/src/ollama.rs:472-547 | a run that sees the flag or a read error tells the lines that had ended, and then which of the two it was |
| OllamaStream.SplitMeans | crates/termlm-inference/src/ollama.rs:487-489 | the lines joined by line ends are the text, and none has one |
| OllamaStream.OllamaProvider.ReadLine | crates/termlm-inference/src/ollama.rs:487-490 | a line cut off is trimmed and parsed, which is the reader the protocol is stated for |
| OllamaStream.CancelStops | crates/termlm-inference/src/ollama.rs:472-483 | chunks seen after the flag is up give no events |
| CancelProtocol.EverySchedule | crates/termlm-inference/src/ollama.rs:373-397 | under every interleaving of runs, cancels and shutdowns each finished run sent exactly what its own stream says, as far as its receiver stayed open, and is out of the map |
| CancelProtocol.EveryRunEndsOnce | crates/termlm-inference/src/ollama.rs:467-566 | under every interleaving what a finished run sent ends with one terminal item, or is the beginning of such when its receiver closed |
| CancelProtocol.CancelFindsTheRun | crates/termlm-inference/src/ollama.rs:382-573 | a cancel raises the flag of a live run exactly when the id was never taken from it, by a later streaming run, by another run under it that ended, or by a shutdown |
| CancelProtocol.TakenByLater | crates/termlm-inference/src/ollama.rs:382-392 | with ids used by one live run at a time, an id is taken exactly when a later run under it streams or was answered, or there was a shutdown |
| CancelProtocol.IdIsLeftBehind | crates/termlm-inference/src/ollama.rs:382-450 | under every interleaving, an id with nothing live under it is in the map exactly when a streaming run under it failed and was never displaced |
| CancelProtocol.RaisedRunTakesNothingIn | crates/termlm-inference/src/ollama.rs:472-483 | once its flag is up a run takes in nothing more, whatever happens next |
| CancelProtocol.SharedIdLosesCancel | crates/termlm-inference/src/ollama.rs:382-392 | a schedule in which a shared id is taken from the second run, and its cancel reaches nobody |
| CancelProtocol.FailedRequestLeavesItsId | crates/termlm-inference/src/ollama.rs:382-450 | with ids used by one live run at a time, an id is left in the map exactly when the last run under it failed before streaming and there was no shutdown since |
| ShellScan.ScanShell | crates/termlm-safety/src/parse.rs:68-215 | the loop over quote, escape and depth variables is the recursive scan, whose tokens, flags, trailing operator and warnings `ShellTokens.TokensExplained`, `ShellScan.ScanExplained`, `ShellTokens.TrailingExplained` and `ShellTokens.WarningsExplained` give for every input |
| ShellScan.ScanOperator | crates/termlm-safety/src/parse.rs:153-183 | the arms for operators are one step of the specification |
| ShellScan.ScanGrouping | crates/termlm-safety/src/parse.rs:118-152 | the arms for `$` and parentheses are one step of the specification |
| ShellScan.ScanFollowsAutomaton | crates/termlm-safety/src/parse.rs:68-215 | the scan ends in the mode of the quoting automaton, and its flags depend only on unquoted, unescaped characters |
| ShellScan.ScanExplained | crates/termlm-safety/src/parse.rs:68-215 | every flag, as an if-and-only-if over the characters in view; grouping is balanced exactly when the parentheses nest; quotes exactly when the automaton ends plain |
| ShellTokens.TokensExplained | crates/termlm-safety/src/parse.rs:68-223 | the tokens of every command: the maximal stretches between bare whitespace and operators, in order, without what quotes, without bare parentheses before all else, trimmed, and but for those of which nothing is left |
| ShellTokens.MarkAt | crates/termlm-safety/src/parse.rs:79-102 | whether a character breaks, quotes or is kept depends on the mode the quoting automaton has come to before it |
| ShellTokens.SpelledWordsComeBack | crates/termlm-safety/src/parse.rs:68-223 | words come back however they are spelled, whatever whitespace and operators are between them |
| ShellTokens.OrdinarySpelling | crates/termlm-safety/src/parse.rs:190-193 | ordinary characters spell themselves |
| ShellTokens.BackslashedSpelling | crates/termlm-safety/src/parse.rs:79-84 | a backslash before each character spells the word |
| ShellTokens.DoubleQuotedSpelling | crates/termlm-safety/src/parse.rs:95-102 | double quotes, with a backslash before each quote and backslash, spell the word |
| ShellTokens.SingleQuotedSpelling | crates/termlm-safety/src/parse.rs:86-93 | single quotes, with a quote written by closing, escaping and opening, spell the word |
| ShellTokens.TrailingExplained | crates/termlm-safety/src/parse.rs:184-211 | a command ends in an operator exactly when a bare operator is last, or only bare whitespace follows it and there is no token |
| ShellTokens.WarningsExplained | crates/termlm-safety/src/parse.rs:118-213 | a warning for each closing parenthesis that nothing opened, and one each for open quotes, open groups and an operator at the end |
| ShellScan.QuotedWordsRoundTrip | crates/termlm-safety/src/parse.rs:68-223 | single-quoted words raise no flag, and come back exactly when none is empty or has outer whitespace |
| ShellScan.FirstSignificantToken | crates/termlm-safety/src/parse.rs:225-245 | the first token that is not sudo, its options, env or an assignment |
| ShellTokens.AssignmentMeans | crates/termlm-safety/src/parse.rs:247-262 | a token is an assignment exactly when it begins with a name, not with a digit, and an equals sign |
| ShellScan.ParseCommand | crates/termlm-safety/src/parse.rs:44-66 | a command is unambiguous exactly when quotes and grouping balance, no operator trails, and some token is significant |
| ToolTags.FindNextTagBounds | crates/termlm-inference/src/tool_parser.rs:157-174 | the leftmost start tag of any pair |
| ToolTags.ParseTaggedToolCalls | crates/termlm-inference/src/tool_parser.rs:6-29 | the loop ends and decodes exactly the blocks of the sanitised text, in order |
| ToolCalls.BlocksMean | crates/termlm-inference/src/tool_parser.rs:6-29 | each block stands between the first start tag of what is left and the end tag that goes with it, or without one is a balanced block, until there is none |
| ToolCalls.SanitizeMeans | crates/termlm-inference/src/tool_parser.rs:150-155 | control characters but line ends and tabs are taken out, and nothing else |
| ToolCalls.DecodedMeans | crates/termlm-inference/src/tool_parser.rs:24-26 | the blocks are decoded one by one, and one that does not decode is passed over |
| ToolCalls.FallbackNeedsCall | crates/termlm-inference/src/tool_parser.rs:176-199 | a block without an end tag begins with `call:` and has a brace, and as much is consumed as it is long with the whitespace before it |
| ToolTags.BlocksRoundTrip | crates/termlm-inference/src/tool_parser.rs:6-29 | written blocks come back exactly when none contains its own end tag, for any separate tags and any filler without start tags |
| ToolTags.TagsAreSeparate | crates/termlm-inference/src/tool_parser.rs:157-162 | none of the three start tags overlaps another |
| ToolTags.TaggedTextRoundTrip | crates/termlm-inference/src/tool_parser.rs:150-174 | the same for the three pairs and the sanitised text |
| ToolTags.BalancedBlockIsMatched | crates/termlm-inference/src/tool_parser.rs:176-199 | the untagged block ends at the brace that matches its first exactly when the scan starts at that brace, or the brace stays open over the text skipped and nothing closes after it, or one brace is open there and the next brace closes it |
| ToolTags.ScanStartsAtBrace | crates/termlm-inference/src/tool_parser.rs:182-184 | the scan starts at the brace exactly when the text before it is ASCII |
| ToolTags.AccentedNameIsCutShort | crates/termlm-inference/src/tool_parser.rs:176-199 | an input whose block is cut with a brace open |
| ToolTags.ExtractBestJsonCandidate | crates/termlm-inference/src/tool_parser.rs:94-133 | the three attempts in order, the last with its loop over depth and start |
| ToolCalls.CandidateMeans | crates/termlm-inference/src/tool_parser.rs:94-133 | the whole text if braced, else what the first fence says if that is, else the first stretch that closes; each by where fences and braces stand |
| ToolTags.FirstObjectCloses | crates/termlm-inference/src/tool_parser.rs:115-132 | the scan takes the first balanced stretch from the first brace, or that brace is never closed |
| ToolTags.CandidateIsBraced | crates/termlm-inference/src/tool_parser.rs:94-133 | a candidate starts with an opening and ends with a closing brace, and stands somewhere in the input |
| Markdown.Normalize | crates/termlm-web/src/extract.rs:380-418 | the loop is the recursive normalisation, which `Prose.NormalizedMeans` and `Prose.InkIsKept` describe line by line |
| Prose.NormalizedMeans | crates/termlm-web/src/extract.rs:380-418 | exactly these lines are written, each once and in order: markers, fenced lines, prose that is no noise and was not said before, and a blank line unless nothing was kept since the last; each as it should be |
| Prose.RulesMean | crates/termlm-web/src/extract.rs:386-445 | a marker begins with three backquotes, compacting keeps all words and leaves single spaces, noise is the five phrases where they count |
| Prose.WordsMean | crates/termlm-web/src/extract.rs:400 | the words are all stretches without whitespace, in order |
| Prose.InkIsKept | crates/termlm-web/src/extract.rs:380-418 | the ink of the result is, in order, that of the markers, the fenced lines and that prose |
| Markdown.NormalizedAgain | crates/termlm-web/src/extract.rs:380-418 | for any lawful line rules, a second pass changes nothing exactly when no fenced line of the input that keeps a return has a line written with ink after it |
| Markdown.IdempotentWithoutReturns | crates/termlm-web/src/extract.rs:380-418 | idempotent on text without carriage returns |
| Markdown.ResultIsTidy | crates/termlm-web/src/extract.rs:380-418 | no prose line twice ignoring case, no two adjacent blank lines outside fences |
| Markdown.FencedVerbatim | crates/termlm-web/src/extract.rs:386-398 | fenced lines are written verbatim, and nothing else becomes fenced |
| Markdown.RulesAreLawful | crates/termlm-web/src/extract.rs:400-445 | the noise filter, word joining and fence marker of the program are lawful rules |
| Markdown.MarkdownTwice | crates/termlm-web/src/extract.rs:380-418 | the same for the program's own rules, and idempotence on text without carriage returns |
| Markdown.FencedReturnIsLost | crates/termlm-web/src/extract.rs:380-418 | inputs on which a second pass does change the text |
| LlamaWindow.MaxOutputTokens | crates/termlm-inference/src/local_llama.rs:208-225 | what is asked for, between 1 and 4096, or 384 |
| LlamaWindow.SizeContext | crates/termlm-inference/src/local_llama.rs:1028-1048 | the prompt is the end of the tokens, the longest that leaves the reserve free in the initial window, or one token when none does, and all of them when they fit; the window is the least from there on that holds prompt and reserve, within the room of the model |
| LlamaWindow.SizingIsUnique | crates/termlm-inference/src/local_llama.rs:1028-1048 | there is only one such prompt and window |
| LlamaWindow.SizesAreRetries | crates/termlm-inference/src/local_llama.rs:1050-1070 | the sizes to try: the whole prompt, then the window up to 1024, then every smaller retry size, downwards to single tokens, and nothing else |
| LlamaWindow.WindowHoldsPromptAndAnswer | crates/termlm-inference/src/local_llama.rs:1028-1048 | every prompt, its answer and eight spare positions fit exactly when the model has room for one token more than answer and spare |
| LlamaWindow.CutIsThePrompt | crates/termlm-inference/src/local_llama.rs:586-620 | the batches hold each position once, in order, none too long |
| LlamaWindow.DecodePromptTokens | crates/termlm-inference/src/local_llama.rs:586-620 | the model is given the batches of the prompt, each once and in order, all of them on success and otherwise up to the one refused; logits are asked for the last position only |
| LlamaWindow.DecodeWithRetries | crates/termlm-inference/src/local_llama.rs:1050-1104 | the sizes are tried in order without repeats, each attempt before the last was refused, the last decoded the whole prompt, and without success all were refused; no batch exceeds its context's limit |
| LlamaWindow.GeneratePositions | crates/termlm-inference/src/local_llama.rs:1161-1251 | the loop decodes consecutive positions from the end of the prompt, one a turn |
| LlamaWindow.RunGeneration | crates/termlm-inference/src/local_llama.rs:1028-1251 | the prompt is cut and the window sized as `SizeContext` promises; the batches given to the context in use are the prompt in order and once, generated positions follow on, and with room for the answer every position lies inside the window |
| PromptBudget.AssembleUserPrompt | crates/termlm-core/src/context/mod.rs:129-222 | question, recent block, older block and note in this order with their labels, each within its caps and what is left of the budget; with the budget off the question alone |
| PromptBudget.PartsMean | crates/termlm-core/src/context/mod.rs:146-215 | the budget to begin with, the caps of each part, and what each leaves |
| PromptBudget.TrimToTokens | crates/termlm-core/src/context/mod.rs:360-375 | at most four characters for each token; the text itself if that is enough, else a prefix and an ellipsis |
| PromptBudget.PromptFitsBudget | crates/termlm-core/src/context/mod.rs:146-215 | the tokens charged stay within the starting budget, and the prompt within four characters for each, ten more and the label |
| PromptBudget.SlackIsUsed | crates/termlm-core/src/context/mod.rs:355-375 | a prompt that uses all of the ten |
| StdoutOrder.OrderHolds | crates/termlm-test/src/main.rs:2278-2287 | the greedy scan passes exactly when all needles can be placed in order without overlap |
| StdoutOrder.GreedyStep | crates/termlm-test/src/main.rs:2278-2287 | taking the leftmost occurrence loses no placement |
| Utf8.EncodeDecode | crates/termlm-indexer/src/store.rs:751-754 | only the bytes of a string decode to it |
| Utf8.OneOrTwoBytes | crates/termlm-indexer/src/store.rs:751-754 | characters up to 0x7F are one byte, up to 0x7FF two (RFC 3629, section 3) |
| Utf8.ThreeBytes | crates/termlm-indexer/src/store.rs:751-754 | up to 0xFFFF three |
| Utf8.FourBytes | crates/termlm-indexer/src/store.rs:751-754 | beyond that four |
| Utf8.OrderOfBytes | crates/termlm-indexer/src/store.rs:254-266 | the order of ordered maps of strings, which is by UTF-8 bytes, is the order of the characters |

## Left out

- Floating point: scores and boosts are reals, so rounding and NaN are not modelled; `ln` and `ln_1p` are arbitrary functions.
- Widths: totals kept in `usize` (cache sizes, lengths of buffers) are unbounded; 32- and 64-bit file fields, `u32` context sizes and `i32` positions are exact.
- Files, sockets, clocks, HTTP and process handling; a file is its bytes and a clock reading is a parameter. The modelled calls that read the time more than once see one value.
- The vector file, memory maps, f16 arithmetic and hash embeddings: the vector score of a row is an arbitrary function.
- JSON decoding of a stream line and the arguments of tool calls: the decoder is a parameter, and only blocks are extracted.
- Lossy UTF-8: well-formed text is decoded exactly, the repair of malformed text is an arbitrary function.
- Paths are text: a path that is not valid UTF-8, and `PathBuf` equality beyond equal text, are not modelled.
- LexiconFile.WriteLexicalBins: the different overflow messages are one error; so are they for the layout writers.
- ChunksReader.ReadChunks: the failures inside a record are one underflow error, which the size check before the records rules out.
- ChunksFile.WriteChunksBin: the panic on a hash that would be cut inside a character is an error value.
- ShellScan.ScanExplained: the flags are those of the scanner's own reading of quotes and operators; how a shell would read the same line is not modelled.
- ShellScan.ScanShell: warnings are counted, their text is not kept.
- OllamaStream.OllamaProvider.PushEvents: the queue is empty on entry, as it is wherever the program calls it.
- CancelProtocol.EverySchedule: handling one polled chunk is one step, so a cancel comes between chunks; of a request without streaming only its effect on the flag map is modelled, not its answer; when a receiver closes is given as how many items it takes.
- PromptBudget.AssembleUserPrompt: the two blocks of terminal history and the keyword tests that admit them are inputs.
- Chunker.EmptyPart: stated for text that does not end in whitespace, as is all the text that is split (`Chunker.BodiesEndInInk`); for other text `NoEmptyPart` and `SomeEmptyPart` are one direction each.
- Chunker.ChunkDocument: the synthesised usage-intents section, the hash and the time of extraction are inputs.
- LlamaWindow.DecodeWithRetries: a failure to create a context, which ends the request, is not modelled.
- Retrieve.SettingsThatPruneSafely: settled for the command-aware mode off and no lexical cap; with boosts the answer depends on the rows, which `WhatPruningLoses` covers.
- `normalize_spacing`: the same loop without fences and without dropping repeats, so it would add an easier copy of `Markdown`.
- `lookup_command_docs` and `first_chunk_per_section`, redaction, safety patterns, HTML extraction, planning, tool exposure, configuration and the cheat sheet: long tables or thin wrappers that would add easy members.

# thynkla retrieval core in Dafny

This project models the local retrieval engine of the thynkla voice-notes app. The engine does the following:

- splits a transcript into overlapping character windows (`TranscriptChunker.chunk`);
- stores each window as a chunk record with an optional float32 embedding (`ChunkIndexer.index`);
- keeps one entry per audio file name (`EntryRepository.upsertEntry` / `fetchTranscript`);
- embeds text by averaging word vectors (`NLEmbeddingsProvider.embedSentence`);
- ranks stored chunks against a question by cosine similarity (`Retriever.topChunks`);
- turns the best five hits into a chat answer (`QAService.ask`).

Modules, one per source file:

- `Base`: `Option`, `Result`, and the scalar types. Floats are their IEEE bit patterns (`bv32`, `bv64`). Identifiers are naturals.
- `Embeddings`: the `EmbeddingsProvider` protocol as a record of `dimension` and `embedSentence`. It also holds the NaturalLanguage provider over an abstract word table and tokenizer, `cosineSimilarity`, and the little-endian `asFloat32Data` / `toFloatArray` pair.
- `Store`: the managed-object context as a class holding the entry records, the chunk records, and the supply of fresh identifiers.
- `Chunking`: `chunk` as a loop proved against the window specification `Windows`, and `index` as a method that appends the new records to the store.
- `EntryRepository`: `upsertEntry` as a method proved against the specification `Upserted`, and `fetchTranscript`.
- `Retriever`: `topChunks` as a function over a snapshot of the stored chunks, or the fetch error.
- `QAService`: the chat log as a class whose `Ask` appends the question and the answer.

Float arithmetic is not interpreted. Addition, multiplication, division, square root, the conversions and the ordering used by the sort are fields of a `FloatArithmetic` record. Proofs about scores therefore hold for any float semantics; where one needs a law (commutativity of multiplication), it states it as a requirement.

## Model

| member | source | states |
|---|---|---|
| Embeddings.Matched | thynkla/EmbeddingsProvider.swift:31-36 | only words the table knows contribute a vector; there are no more vectors than words, and each has the table's dimension |
| Embeddings.Zeros | thynkla/EmbeddingsProvider.swift:29 | the running sum starts as `dimension` zeros |
| Embeddings.VectorSum | thynkla/EmbeddingsProvider.swift:29-36 | the component-wise sum of the word vectors has exactly `dimension` components |
| Embeddings.MeanEmbedding | thynkla/EmbeddingsProvider.swift:27-40 | a present mean has the table's dimension |
| Embeddings.Embed | thynkla/EmbeddingsProvider.swift:27-40 | a present sentence embedding has the provider's `dimension` |
| Embeddings.EmbedSentence | thynkla/EmbeddingsProvider.swift:27-40 | the word loop and the division loop compute exactly `Embed` |
| Embeddings.AddInto | thynkla/EmbeddingsProvider.swift:33 | the component loop adds each word-vector component, converted, to the running sum (`Accumulate`) |
| Embeddings.DivideBy | thynkla/EmbeddingsProvider.swift:38 | the final loop divides every component by the match count (`Scale`) |
| Embeddings.AsProvider | thynkla/EmbeddingsProvider.swift:16-25 | the NaturalLanguage provider conforms to the protocol (every embedding has `dimension` components); its dimension is 0 exactly when there is no word table or the table's dimension is 0 |
| Embeddings.MatchedAppend | thynkla/EmbeddingsProvider.swift:31-36 | the matched vectors of two word runs are the concatenation of each run's vectors |
| Embeddings.MatchedNonEmptyIff | thynkla/EmbeddingsProvider.swift:31-37 | some vector is matched if and only if some lowercased word is in the table |
| Embeddings.EmbedPresentIff | thynkla/EmbeddingsProvider.swift:27-40 | an embedding is returned if and only if a word table exists and some word of the text is in it; it then has `dimension` components |
| Embeddings.UnknownWordIgnored | thynkla/EmbeddingsProvider.swift:32 | deleting a word the table does not know leaves the embedding unchanged |
| Embeddings.CosineSimilarity | thynkla/EmbeddingsProvider.swift:43-49 | for vectors of equal length, the accumulation loop computes `dot / (sqrt(na) * sqrt(nb) + 1e-8)` as defined by `Cosine` |
| Embeddings.SumsSwap | thynkla/EmbeddingsProvider.swift:45-46 | with commutative multiplication, swapping the vectors keeps the dot product and swaps the two squared norms |
| Embeddings.CosineSymmetric | thynkla/EmbeddingsProvider.swift:43-49 | with commutative multiplication, the similarity is symmetric |
| Embeddings.BytesRoundTrip | thynkla/EmbeddingsProvider.swift:52-65 | the four little-endian bytes of a float read back as the same float |
| Embeddings.FloatRoundTrip | thynkla/EmbeddingsProvider.swift:52-65 | any four bytes read as a float are written back as the same bytes |
| Embeddings.AsFloat32Data | thynkla/EmbeddingsProvider.swift:52-55 | the data holds 4 bytes per float |
| Embeddings.ToFloatArray | thynkla/EmbeddingsProvider.swift:59-65 | the array holds one float per whole 4-byte group, so trailing bytes are ignored |
| Embeddings.ToFloatArrayOfData | thynkla/EmbeddingsProvider.swift:52-65 | `toFloatArray(asFloat32Data(v)) == v` for every vector |
| Embeddings.DataOfToFloatArray | thynkla/EmbeddingsProvider.swift:52-65 | `asFloat32Data(toFloatArray(d))` is `d` cut down to a multiple of 4 bytes |
| Store.Context.NewId | thynkla/EntryRepository.swift:32 | a new identifier differs from every identifier in the store, and the store stays valid |
| Store.Context.InsertChunk | thynkla/Chunking.swift:40-41 | a chunk with an unused identifier is added after all others, and the store stays valid |
| Store.Context.InsertEntry | thynkla/EntryRepository.swift:31-32 | an entry with an unused identifier and an unused file name is added after all others, and the store stays valid |
| Store.Context.UpdateEntry | thynkla/EntryRepository.swift:33-38 | writing an entry's fields changes only that record and keeps its identifier and file name, so the store stays valid |
| Chunking.SpansFrom | thynkla/Chunking.swift:15-21 | every window lies within the text, starts at or after the loop position, is non-empty, and ends at `min(start + maxChars, count)` |
| Chunking.Windows | thynkla/Chunking.swift:10-23 | one non-empty window of at most `maxChars` characters per span; empty text gives no chunks; text of at most `maxChars` characters gives itself |
| Chunking.WindowsFromSpans | thynkla/Chunking.swift:15-21 | the chunks the loop still emits from offset `i` are the text of the windows from `i` |
| Chunking.Chunk | thynkla/Chunking.swift:10-23 | the loop with its early break returns exactly `Windows(text, maxChars, overlap)` |
| Chunking.SpansStep | thynkla/Chunking.swift:16-20 | every window but the last is full length, and the next window starts `overlap` characters before its end |
| Chunking.SpansReachEnd | thynkla/Chunking.swift:15-21 | with `0 <= overlap < maxChars`, the windows from position `i` of a longer text start at `i` and the last one ends at the end of the text |
| Chunking.SpansCover | thynkla/Chunking.swift:15-21 | every character from the loop position onwards falls in some window |
| Chunking.Coverage | thynkla/Chunking.swift:10-23 | the chunks of non-empty text start at 0, end at its end, and cover every character |
| Chunking.ConsecutiveChunksOverlap | thynkla/Chunking.swift:16-20 | each next chunk starts with exactly the last `overlap` characters of the previous, full-length chunk |
| Chunking.DefaultWindowsOf2500 | thynkla/Chunking.swift:10 | with the defaults 1200/200, a 2500-character text splits at [0,1200), [1000,2200), [2000,2500) |
| Chunking.AddChunk | thynkla/Chunking.swift:40-49 | one loop pass appends exactly `NewChunk` with the next fresh identifier and leaves the entries alone |
| Chunking.NewChunks | thynkla/Chunking.swift:39-50 | one record is created per window |
| Chunking.Index | thynkla/Chunking.swift:36-52 | the store's chunks grow by exactly the records of the default windows, with fresh consecutive identifiers; entries are untouched and the store stays valid |
| Chunking.ReindexAppends | thynkla/Chunking.swift:36-52 | indexing an entry again keeps its earlier chunks and adds the new batch after them, whatever its windows |
| Chunking.NewChunkVector | thynkla/Chunking.swift:40-49 | each record carries its id, entry id and window, no summary or tags, and a token count equal to the window length (at most 1200). A vector is stored if and only if the window embeds; it reads back as that embedding, with `dimension` components for a conforming provider |
| EntryRepository.Find | thynkla/EntryRepository.swift:26-29 | an entry with the file name (the first in store order), or none exactly when no entry has it |
| EntryRepository.FindInValidStore | thynkla/EntryRepository.swift:26-29 | in a valid store at most one entry carries a name, so the fetch-by-name finds that entry whatever order the fetch uses |
| EntryRepository.FetchTranscript | thynkla/EntryRepository.swift:43-48 | a returned transcript belongs to an entry with that name; with no such entry nothing is returned; when the name is unique, its entry's `rawText` is returned |
| EntryRepository.UpsertEntry | thynkla/EntryRepository.swift:25-41 | the entries become `Upserted(...)` and chunks are untouched. A fresh identifier is used only when inserting; the returned entry is the one stored under the name |
| EntryRepository.UpsertedTarget | thynkla/EntryRepository.swift:29-38 | the first match is overwritten in place, otherwise a record is appended. It keeps its old id or takes the fresh one and gets the new name, time and text. Its meta is replaced only when meta is given; all other entries are unchanged |
| EntryRepository.UpsertLeavesOne | thynkla/EntryRepository.swift:25-41 | after an upsert the name is present, and is held by at most one entry if that held before |
| EntryRepository.UpsertFreshId | thynkla/EntryRepository.swift:31-32 | an inserted entry's id clashes with no existing entry in a valid store |
| EntryRepository.UpsertIdempotent | thynkla/EntryRepository.swift:25-41 | repeating the same upsert leaves the entries unchanged |
| EntryRepository.UpsertTwice | thynkla/EntryRepository.swift:25-41 | a second upsert of the same name adds no entry and keeps its position and identity, taking the second call's fields |
| EntryRepository.FetchAfterUpsert | thynkla/EntryRepository.swift:25-48 | after an upsert, fetching that name gives the new text, and fetching any other name gives what it gave before |
| Retriever.Score | thynkla/Retriever.swift:32-44 | a scored chunk keeps the stored chunk's id, entry id and text |
| Retriever.Scored | thynkla/Retriever.swift:32-44 | `compactMap` yields at most one result per stored chunk, each drawn from a distinct stored chunk |
| Retriever.Insert | thynkla/Retriever.swift:45 | inserting into a descending list keeps it descending and adds exactly that element |
| Retriever.SortByScore | thynkla/Retriever.swift:45 | the sort by `score >` is descending and a permutation of its input |
| Retriever.TopChunks | thynkla/Retriever.swift:26-49 | at most `limit` results in descending score order. The result is empty when the query does not embed, when `dimension <= 0`, or when the fetch throws |
| Retriever.TopChunksSelection | thynkla/Retriever.swift:45 | exactly `min(limit, scored count)` results are taken from the scored chunks, and no left-out chunk scores higher than a returned one |
| Retriever.TopChunksFromStore | thynkla/Retriever.swift:26-49 | the results' (id, entry id, text) triples are a sub-multiset of the stored chunks' |
| Retriever.StoredVectorPreferred | thynkla/Retriever.swift:33-35 | a stored vector of the right dimension is used as is: the score is its cosine with the query, whatever the provider embeds |
| Retriever.FallbackScoring | thynkla/Retriever.swift:36-41 | without a usable stored vector, a chunk is kept if and only if its text embeds to a vector as long as the query's, and is scored by it |
| Retriever.IndexedChunkScore | thynkla/Retriever.swift:32-44 | a chunk written by `index` is retrieved by the same conforming provider if and only if its window embeds, with the cosine against that embedding |
| QAService.BulletLines | thynkla/QAService.swift:31 | one bullet line per hit |
| QAService.JoinedAppend | thynkla/QAService.swift:31 | joining one more line appends the newline and that line |
| QAService.HitListEmptyIff | thynkla/QAService.swift:31-33 | the context is empty if and only if there are no hits |
| QAService.HitListAppend | thynkla/QAService.swift:31 | each further hit appends `"\n• "` and its text, so hits are listed in retrieval order |
| QAService.AnswerIff | thynkla/QAService.swift:32-37 | the answer is the no-match text if and only if there are no hits; otherwise it is the header followed by the context |
| QAService.NoMatchWithoutHits | thynkla/QAService.swift:26-39 | with no query embedding, a zero-dimension provider or a failed fetch, the reply is the no-match text |
| QAService.QAService.Ask | thynkla/QAService.swift:26-39 | the log grows by exactly the user's question and then the assistant's answer over at most five retrieved chunks |

## Left out

- Core Data: the store is in memory. Failures of `context.save()` are not modelled, nor the `try` on the fetch in `upsertEntry` and `fetchTranscript`. Only the retriever's fetch failure is modelled, as a `Result` argument, because it changes the result.
- EntryRepository.UpsertEntry: the JSON encoder is a total function parameter. Its throw on non-finite durations is not modelled.
- EntryRepository.UpsertEntry: the returned `EntryMO` is a value copy, so later writes through that reference are not modelled.
- EntryRepository.Find: a Core Data fetch with `fetchLimit = 1` and no sort order may return any match; the model takes the first in store order. The store's `Valid()` keeps file names unique, and `FindInValidStore` shows the choice cannot matter in any store the core builds.
- Store.Context.NewId: `UUID()` is random. It is modelled as a counter, which is fresh by construction; the model does not capture collisions.
- Float semantics (rounding, NaN, infinities) are uninterpreted. The order used by the sort is an integer `rank` of each score, so NaN comparisons are not modelled.
- Retriever.SortByScore: Swift's `sorted(by:)` is not guaranteed to be stable. The model leaves the order among equal scores unspecified, as the source does.
- Embeddings.Embed: word segmentation (`enumerateSubstrings(.byWords)`), lowercasing and the word vectors are abstract functions. The `language` hint is ignored by the source and is not modelled.
- Chunking.Chunk: requires `0 < maxChars` and `overlap < maxChars`, which the only caller (1200/200) meets. Outside that range the source does not behave like a chunker:
  - with `0 < maxChars <= overlap` its loop never advances;
  - with `maxChars == 0` and a negative overlap it returns a list of empty strings;
  - with `maxChars < 0` the slice `chars[i..<end]` traps.
  Characters are `Character` grapheme clusters in the source and `char` here.
- Retriever.TopChunks: requires a present query embedding to have `dimension` components. Otherwise the source's `cosineSimilarity` precondition traps on the stored-vector branch. A conforming provider, as `QAService.Ask` requires, always meets it.
- Chunking.Index: the `Int32(t.count)` conversion is a plain integer. `NewChunkVector` shows it is at most 1200.
- The `#else` stub provider of the non-NaturalLanguage platforms is not modelled (dimension 0, no embeddings, zero similarity). `AsProvider` of a provider without a table behaves the same way for retrieval.
- The `IndexMeta` record, the `fetchBatchSize` hint and the `ChatMessage` UUID are not modelled. The core neither writes nor reads the first, and the other two do not affect results.
- Reindexing appends a new chunk set and leaves the entry's earlier chunks in the store (`ReindexAppends`); the model does not delete them.
- Sorting ties: the code promises no order among equal scores, and neither does the model.
- The retriever compares stored vectors against the provider's `dimension`, not against an `IndexMeta` record, and the model follows the code.

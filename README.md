# RAG engine of the AI PM assistant, in Dafny

This project models `RAGEngine`, the retrieval-augmented-generation engine of the
project-management assistant (`src/rag_engine.py`):

- **Chunking** (`_chunk_document`, module `Chunker`). A document is split on the
  `"\n==="` section marker. Each section is stripped, and blank ones are skipped.
  A section's title is its first line with `=` and blanks trimmed, and its body is
  the remaining lines. A body of at most `chunk_size` characters becomes one chunk.
  A longer body is cut into windows of `chunk_size` characters that advance by
  `chunk_size - overlap`, and windows shorter than 100 characters are dropped.
  The specification is a family of functions (`Chunks`, `SectionChunks`,
  `WindowChunks`). The methods `ChunkDocument`, `ChunkSection` and `CutWindows`
  have the source's loops and are proved equal to those functions.
- **Loading** (`load_documents`, module `Rag`). A non-empty collection is left
  alone unless a reload is forced, and a forced reload starts from an empty
  collection. Every file is chunked with the default sizes (1000, overlap 200).
  Chunk `i` of file `stem` gets the id `stem_chunk_i`. The texts, metadata
  dictionaries and ids are collected in three aligned lists, added in consecutive
  batches of 100, and the count is returned.
- **Retrieval** (`retrieve` and `retrieve_with_context`, modules `Retrieval` and
  `Rag`). A `where` filter is built from a truthy source name. Records are built
  from the store's answer. The context text is made of numbered
  `[Source i: source - section]` blocks joined by `"\n\n---\n\n"`, or a fixed
  sentinel when nothing was retrieved.
- **Statistics and reset** (`get_stats` and `reset`). The distinct sources are
  taken from a sample of at most 10 stored entries. Reset recreates an empty
  collection under the same name.

The vector store (ChromaDB) is a small class `VectorStore.Collection`. It holds
the stored entries in insertion order and a ghost log of the batches `add`
received. Its similarity search is a function parameter of the retrieval methods.
The knowledge-base files are given as (stem, content) pairs. Module `PyStr`
models the Python string operations the engine relies on: `strip`, `split`,
`join`, `str(int)`. Module `Wrappers` holds `Option`, `Result` and the two Python
errors that can arise (`KeyError`, `IndexError`).

Four behaviours of the code are easy to misread, and the model follows the code:

- The `else "Unknown"` title fallback of src/rag_engine.py:176 is unreachable.
  `split` never returns an empty list, so a section without a heading takes its
  first line as its title (`Chunker.SectionLines`).
- A kept window's text is stripped after the 100-character test
  (src/rag_engine.py:195-199). A window made entirely of whitespace therefore
  yields a chunk whose text is empty. This can only be a full-width window inside
  the body, because the body ends with a non-blank character
  (`Chunker.BodyNotBlank`). Only whole-section chunks are proved non-empty
  (`Chunker.SmallSection`).
- More than one window can be shorter than `chunk_size`: every window that
  reaches past the end of the body is.
- With `chunk_size < 100`, an oversized section yields no chunk at all.

## Model

| member | source | states |
|---|---|---|
| `PyStr.StripSpec` | src/rag_engine.py:170-172 | `strip` never lengthens; it gives "" exactly when every character is stripped; otherwise the result neither starts nor ends with a stripped character |
| `PyStr.StripBounds` | src/rag_engine.py:170 | `strip` returns a contiguous slice of its input, with only stripped characters cut from each side |
| `PyStr.Split` | src/rag_engine.py:165 | `split` gives at least one piece; joining the pieces with the separator restores the input; no piece contains the separator |
| `PyStr.JoinSnoc` | src/rag_engine.py:284 | joining one more string appends the separator and that string |
| `PyStr.ParseNatToString` | src/rag_engine.py:120 | the decimal text of a number reads back as that number |
| `PyStr.NatToStringInjective` | src/rag_engine.py:120 | distinct numbers have distinct decimal texts |
| `VectorStore.Collection.constructor` | src/rag_engine.py:55-71 | opening a collection gives the persisted entries under its name, with no batch added yet |
| `VectorStore.Collection.Count` | src/rag_engine.py:84 | `count()` is the number of stored entries |
| `VectorStore.Collection.Add` | src/rag_engine.py:132-136 | `add` appends the entries formed by the aligned ids, documents and metadata, in order, as one batch |
| `VectorStore.Collection.Get` | src/rag_engine.py:299 | `get(limit)` gives the metadata of the first `min(limit, count)` stored entries |
| `Chunker.ChunkMetadata.AsDict` | src/rag_engine.py:181-205 | the metadata dictionary has keys source, section and chunk_size, plus chunk_index exactly for a window; source and section hold the source and title, chunk_size the raw length and chunk_index the window number |
| `Chunker.ChunkDocument` | src/rag_engine.py:165-208 | the section loop yields the chunks of each section in section order |
| `Chunker.ChunkSection` | src/rag_engine.py:169-206 | the loop body for one section: nothing for a blank section, one chunk for a small body, the windows otherwise |
| `Chunker.CutWindows` | src/rag_engine.py:191-206 | the window loop yields the kept windows starting at 0, step, 2*step, … |
| `Chunker.ChunkSectionsAppend` | src/rag_engine.py:169 | the chunks of consecutive sections are the chunks of each, concatenated in order |
| `Chunker.BlankSectionsNoChunks` | src/rag_engine.py:170-172 | sections that are blank after stripping yield no chunk |
| `Chunker.BlankContentNoChunks` | src/rag_engine.py:165-172 | empty or whitespace-only content yields no chunk |
| `Chunker.SectionLines` | src/rag_engine.py:175-177 | the title is the text before the first line break with `=` and blanks stripped, then stripped; the body is the text after that break, or the whole section when there is none |
| `Chunker.BodyNotBlank` | src/rag_engine.py:170-177 | the body of a non-blank stripped section is not blank |
| `Chunker.SmallSection` | src/rag_engine.py:180-188 | a body of at most chunk_size characters yields exactly one chunk: the stripped body, never empty, with the unstripped length and no chunk_index |
| `Chunker.RawWindow` | src/rag_engine.py:192 | the window starting at `start` has `min(chunk_size, len(body) - start)` characters |
| `Chunker.WindowStartIsProduct` | src/rag_engine.py:191 | window k starts at `k * step` |
| `Chunker.StartsIncrease` | src/rag_engine.py:191 | window starts increase with the window number |
| `Chunker.WindowNumberOfStart` | src/rag_engine.py:203 | the chunk_index recorded for the window starting at `k * step` is k |
| `Chunker.FloorDivIsDiv` | src/rag_engine.py:203 | the repeated-subtraction quotient is the floor quotient `//` |
| `Chunker.WindowChunksSound` | src/rag_engine.py:191-206 | every window chunk from window k on is the stripped window numbered m >= k, with its raw length (100 to chunk_size), source and title |
| `Chunker.WindowNumbersFrom` | src/rag_engine.py:203 | window chunks from a start on carry a chunk_index of at least start // step |
| `Chunker.WindowChunksOrdered` | src/rag_engine.py:191-206 | window chunks appear with strictly increasing chunk_index |
| `Chunker.WindowChunksComplete` | src/rag_engine.py:194-196 | every window that starts inside the body and has at least 100 raw characters is kept |
| `Chunker.WindowFull` | src/rag_engine.py:192 | a window has the full chunk_size exactly when it ends inside the body |
| `Chunker.WindowOverlap` | src/rag_engine.py:191-192 | when window k is full, its last `overlap` characters are the first `overlap` characters of window k+1 |
| `Chunker.DefaultWindowsOf1500` | src/rag_engine.py:191-206 | a 1500-character body at the default sizes gives two chunks: raw lengths 1000 and 700, chunk_index 0 and 1 |
| `Chunker.SectionChunksWellFormed` | src/rag_engine.py:180-206 | every chunk of a section is well formed (see `ChunksWellFormed`) |
| `Chunker.ChunkSectionsWellFormed` | src/rag_engine.py:169-206 | every chunk of a list of sections is well formed |
| `Chunker.ChunksWellFormed` | src/rag_engine.py:145-208 | every chunk carries the document's source and a raw size from 1 to chunk_size; a whole-section chunk is non-empty and a window has at least 100 raw characters |
| `Retrieval.WhereFilter` | src/rag_engine.py:228-230 | a filter is sent exactly for a given, non-empty source, and then it is `{"source": source}` alone |
| `Retrieval.Records` | src/rag_engine.py:240-247 | an IndexError exactly when the answer's lists are too short; otherwise one record per returned document, in order, pairing the i-th document, metadata, distance (None without distances) and id |
| `Retrieval.FormatContext` | src/rag_engine.py:270-284 | the loop renders the context: the sentinel for no records, else the numbered blocks joined by the separator |
| `Retrieval.BlockStart` | src/rag_engine.py:280-282 | every block starts with `"[Source "` |
| `Retrieval.ContextSentinel` | src/rag_engine.py:270-284 | the sentinel is returned exactly when nothing was retrieved; any other context starts with `"[Source "` (tests/test_rag_engine.py:98) |
| `Retrieval.ContextSnoc` | src/rag_engine.py:275-284 | one more record appends the separator and a block numbered one past the others |
| `Retrieval.MissingSectionBlock` | src/rag_engine.py:277-281 | a record without a "section" key renders with "unknown" as its section, for every rank and record |
| `Retrieval.MissingSourceBlock` | src/rag_engine.py:276-281 | a record without a "source" key renders with "unknown" as its source, for every rank and record |
| `Retrieval.UnknownSectionBlock` | src/rag_engine.py:276-281 | an instance: the rank-2 record of source "agile" without a section key renders as `[Source 2: agile - unknown]` followed by its text |
| `Rag.ChunkIdRoundTrip` | src/rag_engine.py:120 | a chunk id reads back as the stem and number it was made from |
| `Rag.ChunkIdInjective` | src/rag_engine.py:120 | two chunk ids are equal only for the same stem and number |
| `Rag.EntriesOfIds` | src/rag_engine.py:119-123 | the ids of one file's chunks are distinct and all belong to its stem |
| `Rag.IdsAppend` | src/rag_engine.py:108-123 | entries from disjoint stems, each with distinct ids, still have distinct ids together |
| `Rag.LoadEntriesIdsDistinct` | src/rag_engine.py:108-123 | when file stems are distinct, all chunk ids of a load are distinct and read back to one of the stems |
| `Rag.BatchesPartition` | src/rag_engine.py:126-136 | the batches, concatenated in order, are exactly the chunk list; each holds 1 to 100 entries and all but the last hold 100 |
| `Rag.BatchesStep` | src/rag_engine.py:127-130 | the batches from position i are the slice `[i:i+100]` followed by the batches from `i+100` |
| `Rag.AppendEntries` | src/rag_engine.py:119-123 | the chunk loop extends the three lists in step; their i-th positions form the entry `(stem_chunk_i, text, metadata)` |
| `Rag.CollectChunks` | src/rag_engine.py:104-123 | the three lists have one length, and together they are the entries of every file, file by file |
| `Rag.AddInBatches` | src/rag_engine.py:126-136 | the collection gains all entries, in order, added as the successive batches of 100 |
| `Rag.SampleSources` | src/rag_engine.py:300 | a KeyError exactly when some sampled dictionary lacks "source"; otherwise every sampled source value exactly once |
| `Rag.StatsSpec` | src/rag_engine.py:295-309 | an empty collection reports no source; otherwise at most 10 distinct sources, exactly those of the first min(count, 10) entries; name, model and count as they are |
| `Rag.RagEngine.constructor` | src/rag_engine.py:25-53 | the engine opens the collection of its name, holding what was persisted |
| `Rag.RagEngine.LoadDocuments` | src/rag_engine.py:73-143 | a non-empty collection without force: count returned, nothing changed; force: a fresh collection; otherwise all file entries stored in batches of 100 and their number returned |
| `Rag.RagEngine.GetStats` | src/rag_engine.py:288-309 | the statistics of the current collection, as `StatsSpec` characterises them |
| `Rag.RagEngine.Reset` | src/rag_engine.py:311-316 | a fresh, empty collection under the same name |
| `Rag.RagEngine.Retrieve` | src/rag_engine.py:210-251 | the records built from the store's answer to `[query]`, top_k and the where filter |
| `Rag.RagEngine.RetrieveWithContext` | src/rag_engine.py:253-286 | an IndexError exactly when the answer is misaligned; otherwise the context rendered from the retrieved records |

## Left out

- Embeddings and similarity ranking: the OpenAI embedding function and ChromaDB's nearest-neighbour query are not modelled. The query is the `search` parameter, and the records are proved to reshape whatever it returns.
- Persistence and the ChromaDB client: the stored entries of an existing collection are given to the constructor. Deleting and recreating a collection is modelled as a fresh empty `Collection` of the same name.
- `VectorStore.Collection.Get`: the order in which ChromaDB returns a `get(limit)` sample is assumed to be insertion order.
- `VectorStore.Collection.Add`: ChromaDB's treatment of duplicate ids is not modelled. Instead, `Rag.LoadEntriesIdsDistinct` proves that a load of distinctly named files never produces one.
- Reading the knowledge-base directory (`glob("*.txt")`, `open`, `read`) is filesystem I/O. The files come in as (stem, content) pairs, in the order `glob` would list them.
- Logging, the configuration object and the `main` demo are not modelled.
- `Chunker.ChunkDocument`: requires `overlap < chunk_size` and a non-negative overlap. With `overlap == chunk_size`, `range` raises. With `overlap > chunk_size`, no window is produced. A negative overlap would leave gaps between windows. These inputs are never used by the engine (it passes 1000 and 200).
- `Rag.SampleSources`: Python lists a `set`, whose order is unspecified. The model fixes first-occurrence order, and its contract states only membership, no duplicates and the bound.
- `Retrieval.Records`: only the first inner list of each key is read, as in the source. A "distances" key present with the value `None` is not distinguished from an absent key.
- `VectorStore`: metadata values are strings or integers. Floats, booleans and `None` never arise from the chunker and are left out.
- `src/llm_client.py`, `src/prompts.py`, `src/features.py`, `src/utils.py` and `app.py` are not part of this model: network calls, prompt templates, UI and configuration.

/** `RAGEngine`: loading a knowledge base of text files into the collection (chunk
    ids, three aligned lists, batches of 100), retrieval through the store, statistics
    and reset. The store's query is an input function, and the files are given as
    (stem, content) pairs instead of being read from disk. */
module Rag {
  import opened Wrappers
  import opened PyStr
  import opened VectorStore
  import opened Chunker
  import opened Retrieval

  /** How many chunks one call to `add` receives at most. */
  const BatchSize: nat := 100
  /** The chunk width `load_documents` uses (the default of `_chunk_document`). */
  const DefaultChunkSize: nat := 1000
  /** The window overlap `load_documents` uses. */
  const DefaultOverlap: nat := 200
  /** How many stored entries `get_stats` samples at most. */
  const StatsSampleSize: nat := 10
  /** What separates the file stem from the chunk number in a chunk id. */
  const IdInfix: string := "_chunk_"

  /** A knowledge-base file: its name without the ".txt" extension, and its text. */
  datatype SourceFile = SourceFile(stem: string, content: string)

  /** The dictionary `get_stats` returns. */
  datatype Stats = Stats(collectionName: string, totalChunks: nat, sources: seq<MetaValue>, embeddingModel: string)

  // ---------------------------------------------------------------------------
  // Chunk ids

  /** `f"{stem}_chunk_{i}"`. */
  function ChunkId(stem: string, i: nat): string
  {
    stem + IdInfix + NatToString(i)
  }

  /** The number of decimal digits `s` ends with. */
  function DigitSuffixLength(s: string): (n: nat)
    ensures n <= |s|
    decreases |s|
  {
    if |s| > 0 && IsDigit(s[|s| - 1]) then 1 + DigitSuffixLength(s[..|s| - 1]) else 0
  }

  /** Reading a chunk id back into its stem and chunk number: the id must end with
      "_chunk_" followed by digits. */
  function ParseChunkId(id: string): Option<(string, nat)>
  {
    var n := DigitSuffixLength(id);
    var head := id[..|id| - n];
    if n == 0 || |head| < |IdInfix| || head[|head| - |IdInfix|..] != IdInfix then None
    else Some((head[..|head| - |IdInfix|], ParseNat(id[|id| - n..])))
  }

  lemma {:induction false} DigitSuffixOfNumeral(prefix: string, digits: string)
    requires |prefix| > 0 && !IsDigit(prefix[|prefix| - 1])
    requires forall i :: 0 <= i < |digits| ==> IsDigit(digits[i])
    ensures DigitSuffixLength(prefix + digits) == |digits|
    decreases |digits|
  {
    var s := prefix + digits;
    if |digits| == 0 {
      assert s == prefix;
    } else {
      assert s[..|s| - 1] == prefix + digits[..|digits| - 1];
      DigitSuffixOfNumeral(prefix, digits[..|digits| - 1]);
    }
  }

  /** A chunk id gives back the stem and the number it was made from. */
  lemma ChunkIdRoundTrip(stem: string, i: nat)
    ensures ParseChunkId(ChunkId(stem, i)) == Some((stem, i))
  {
    var id := ChunkId(stem, i);
    var digits := NatToString(i);
    var prefix := stem + IdInfix;
    assert id == prefix + digits;
    assert prefix[|prefix| - 1] == '_';
    DigitSuffixOfNumeral(prefix, digits);
    assert id[..|id| - |digits|] == prefix;
    assert id[|id| - |digits|..] == digits;
    assert prefix[|prefix| - |IdInfix|..] == IdInfix;
    assert prefix[..|prefix| - |IdInfix|] == stem;
    ParseNatToString(i);
  }

  /** Two chunk ids are equal only for the same stem and the same number. */
  lemma ChunkIdInjective(stem1: string, i1: nat, stem2: string, i2: nat)
    requires ChunkId(stem1, i1) == ChunkId(stem2, i2)
    ensures stem1 == stem2 && i1 == i2
  {
    ChunkIdRoundTrip(stem1, i1);
    ChunkIdRoundTrip(stem2, i2);
  }

  // ---------------------------------------------------------------------------
  // What a load stores

  /** The chunks of one file at the sizes `load_documents` uses. */
  function FileChunks(f: SourceFile): seq<Chunk>
  {
    Chunks(f.content, f.stem, DefaultChunkSize, DefaultOverlap)
  }

  /** The entries made from the chunks of the file `stem`: the i-th chunk under id
      `ChunkId(stem, i)`, with its metadata as a dictionary. */
  function EntriesOf(stem: string, cs: seq<Chunk>): (es: seq<Entry>)
    ensures |es| == |cs|
  {
    seq(|cs|, i requires 0 <= i < |cs| => Entry(ChunkId(stem, i), cs[i].text, cs[i].metadata.AsDict()))
  }

  /** The entries made from one file. */
  function FileEntries(f: SourceFile): seq<Entry>
  {
    EntriesOf(f.stem, FileChunks(f))
  }

  /** The entries made from the files, file by file in the given order. */
  function LoadEntries(files: seq<SourceFile>): seq<Entry>
  {
    if files == [] then [] else LoadEntries(files[..|files| - 1]) + FileEntries(files[|files| - 1])
  }

  function Stems(files: seq<SourceFile>): set<string>
  {
    set f | f in files :: f.stem
  }

  /** No two files share a stem (a directory never holds two files of one name). */
  ghost predicate DistinctStems(files: seq<SourceFile>)
  {
    forall i, j :: 0 <= i < j < |files| ==> files[i].stem != files[j].stem
  }

  ghost predicate IdsDistinct(es: seq<Entry>)
  {
    forall i, j :: 0 <= i < j < |es| ==> es[i].id != es[j].id
  }

  /** Every id of `es` reads back as a chunk id of one of `stems`. */
  ghost predicate IdsFromStems(es: seq<Entry>, stems: set<string>)
  {
    forall i :: 0 <= i < |es| ==> ParseChunkId(es[i].id).Some? && ParseChunkId(es[i].id).value.0 in stems
  }

  /** The ids of one file's entries are distinct chunk ids of its stem. */
  lemma EntriesOfIds(stem: string, cs: seq<Chunk>)
    ensures IdsDistinct(EntriesOf(stem, cs)) && IdsFromStems(EntriesOf(stem, cs), {stem})
  {
    var es := EntriesOf(stem, cs);
    forall i, j | 0 <= i < j < |es| ensures es[i].id != es[j].id {
      if es[i].id == es[j].id {
        ChunkIdInjective(stem, i, stem, j);
      }
    }
    forall i | 0 <= i < |es| ensures ParseChunkId(es[i].id).Some? && ParseChunkId(es[i].id).value.0 in {stem} {
      ChunkIdRoundTrip(stem, i);
    }
  }

  /** Entries of disjoint stem sets, each with distinct ids, have distinct ids
      together. */
  lemma IdsAppend(a: seq<Entry>, sa: set<string>, b: seq<Entry>, sb: set<string>)
    requires IdsDistinct(a) && IdsFromStems(a, sa)
    requires IdsDistinct(b) && IdsFromStems(b, sb)
    requires sa !! sb
    ensures IdsDistinct(a + b) && IdsFromStems(a + b, sa + sb)
  {
    var es := a + b;
    forall i | 0 <= i < |es|
      ensures ParseChunkId(es[i].id).Some? && ParseChunkId(es[i].id).value.0 in sa + sb
    {
      if i < |a| {
        assert es[i] == a[i];
      } else {
        assert es[i] == b[i - |a|];
      }
    }
    forall i, j | 0 <= i < j < |es| ensures es[i].id != es[j].id {
      if j < |a| {
        assert es[i] == a[i] && es[j] == a[j];
      } else if |a| <= i {
        assert es[i] == b[i - |a|] && es[j] == b[j - |a|];
      } else {
        assert es[i] == a[i] && es[j] == b[j - |a|];
        assert ParseChunkId(es[i].id).value.0 in sa;
        assert ParseChunkId(es[j].id).value.0 in sb;
      }
    }
  }

  /** When the stems are distinct, so are all the chunk ids of a load. */
  lemma {:induction false} LoadEntriesIdsDistinct(files: seq<SourceFile>)
    requires DistinctStems(files)
    ensures IdsDistinct(LoadEntries(files)) && IdsFromStems(LoadEntries(files), Stems(files))
    decreases |files|
  {
    if files != [] {
      var init := files[..|files| - 1];
      var last := files[|files| - 1];
      assert DistinctStems(init);
      LoadEntriesIdsDistinct(init);
      EntriesOfIds(last.stem, FileChunks(last));
      assert last.stem !in Stems(init);
      assert files == init + [last];
      assert Stems(files) == Stems(init) + {last.stem};
      IdsAppend(LoadEntries(init), Stems(init), FileEntries(last), {last.stem});
    }
  }

  // ---------------------------------------------------------------------------
  // Batches

  /** `[xs[i:i + size] for i in range(0, len(xs), size)]`. */
  function Batches<T>(xs: seq<T>, size: nat): seq<seq<T>>
    requires size > 0
    decreases |xs|
  {
    if xs == [] then [] else [xs[..Min(size, |xs|)]] + Batches(xs[Min(size, |xs|)..], size)
  }

  function Flatten<T>(xss: seq<seq<T>>): seq<T>
  {
    if xss == [] then [] else xss[0] + Flatten(xss[1..])
  }

  /** Every batch holds between 1 and `size` items, and all but the last exactly
      `size`. */
  ghost predicate BatchSizes<T>(bs: seq<seq<T>>, size: nat)
  {
    && (forall i :: 0 <= i < |bs| ==> 0 < |bs[i]| <= size)
    && (forall i :: 0 <= i < |bs| - 1 ==> |bs[i]| == size)
  }

  /** The batches are consecutive slices that, in order, cover every item exactly
      once. */
  lemma {:induction false} BatchesPartition<T>(xs: seq<T>, size: nat)
    requires size > 0
    ensures Flatten(Batches(xs, size)) == xs
    ensures BatchSizes(Batches(xs, size), size)
    decreases |xs|
  {
    if xs != [] {
      var m := Min(size, |xs|);
      BatchesPartition(xs[m..], size);
      var bs := Batches(xs, size);
      var rest := Batches(xs[m..], size);
      assert bs == [xs[..m]] + rest;
      assert bs[1..] == rest;
      assert xs[..m] + xs[m..] == xs;
      forall i | 0 <= i < |bs| ensures 0 < |bs[i]| <= size {
        if i > 0 { assert bs[i] == rest[i - 1]; }
      }
      forall i | 0 <= i < |bs| - 1 ensures |bs[i]| == size {
        if i > 0 {
          assert bs[i] == rest[i - 1];
        } else {
          assert rest != [];
        }
      }
    }
  }

  /** One more batch of the items that follow the first `i`. */
  lemma BatchesStep<T>(xs: seq<T>, size: nat, i: nat)
    requires size > 0 && i < |xs|
    ensures Batches(xs[i..], size) == [xs[i..Min(i + size, |xs|)]] + Batches(xs[Min(i + size, |xs|)..], size)
  {
    var t := xs[i..];
    assert t[..Min(size, |t|)] == xs[i..Min(i + size, |xs|)];
    assert t[Min(size, |t|)..] == xs[Min(i + size, |xs|)..];
  }

  // ---------------------------------------------------------------------------
  // The loops of load_documents

  lemma ZipSnoc(ids: seq<string>, documents: seq<string>, metadatas: seq<Metadata>, id: string, document: string, metadata: Metadata)
    requires |ids| == |documents| == |metadatas|
    ensures Zip(ids + [id], documents + [document], metadatas + [metadata])
            == Zip(ids, documents, metadatas) + [Entry(id, document, metadata)]
  {
  }

  lemma ZipSlice(ids: seq<string>, documents: seq<string>, metadatas: seq<Metadata>, i: nat, j: nat)
    requires |ids| == |documents| == |metadatas| && i <= j <= |ids|
    ensures Zip(ids[i..j], documents[i..j], metadatas[i..j]) == Zip(ids, documents, metadatas)[i..j]
  {
  }

  /** The chunk loop inside the per-file loop of `load_documents`: append the
      texts, metadata dictionaries and ids of the chunks of file `stem` to the three
      lists. */
  method AppendEntries(stem: string, chunks: seq<Chunk>, texts: seq<string>, metadatas: seq<Metadata>, ids: seq<string>)
    returns (texts': seq<string>, metadatas': seq<Metadata>, ids': seq<string>)
    requires |texts| == |metadatas| == |ids|
    ensures |texts'| == |metadatas'| == |ids'|
    ensures Zip(ids', texts', metadatas') == Zip(ids, texts, metadatas) + EntriesOf(stem, chunks)
  {
    texts', metadatas', ids' := texts, metadatas, ids;
    ghost var entries := EntriesOf(stem, chunks);
    var i := 0;
    while i < |chunks|
      invariant 0 <= i <= |chunks|
      invariant |texts'| == |metadatas'| == |ids'|
      invariant Zip(ids', texts', metadatas') == Zip(ids, texts, metadatas) + entries[..i]
    {
      var chunkId := stem + IdInfix + NatToString(i);
      ZipSnoc(ids', texts', metadatas', chunkId, chunks[i].text, chunks[i].metadata.AsDict());
      assert entries[..i + 1] == entries[..i] + [entries[i]];
      texts' := texts' + [chunks[i].text];
      metadatas' := metadatas' + [chunks[i].metadata.AsDict()];
      ids' := ids' + [chunkId];
      i := i + 1;
    }
    assert entries[..i] == entries;
  }

  /** The per-file loop of `load_documents`: chunk every file and accumulate the
      texts, metadata dictionaries and ids in three lists of one length, whose i-th
      positions together are the i-th entry of the load. */
  method CollectChunks(files: seq<SourceFile>) returns (allChunks: seq<string>, allMetadatas: seq<Metadata>, allIds: seq<string>)
    ensures |allChunks| == |allMetadatas| == |allIds|
    ensures Zip(allIds, allChunks, allMetadatas) == LoadEntries(files)
  {
    allChunks, allMetadatas, allIds := [], [], [];
    var f := 0;
    while f < |files|
      invariant 0 <= f <= |files|
      invariant |allChunks| == |allMetadatas| == |allIds|
      invariant Zip(allIds, allChunks, allMetadatas) == LoadEntries(files[..f])
    {
      var file := files[f];
      var chunks := ChunkDocument(file.content, file.stem, DefaultChunkSize, DefaultOverlap);
      assert EntriesOf(file.stem, chunks) == FileEntries(file);
      allChunks, allMetadatas, allIds := AppendEntries(file.stem, chunks, allChunks, allMetadatas, allIds);
      assert files[..f + 1][..f] == files[..f];
      f := f + 1;
    }
    assert files[..f] == files;
  }

  /** The batch loop of `load_documents`: `add` the three lists in consecutive slices
      of 100. */
  method AddInBatches(coll: Collection, allIds: seq<string>, allChunks: seq<string>, allMetadatas: seq<Metadata>)
    requires |allIds| == |allChunks| == |allMetadatas|
    modifies coll
    ensures coll.entries == old(coll.entries) + Zip(allIds, allChunks, allMetadatas)
    ensures coll.batchLog == old(coll.batchLog) + Batches(Zip(allIds, allChunks, allMetadatas), BatchSize)
  {
    ghost var es := Zip(allIds, allChunks, allMetadatas);
    var n := |allChunks|;
    var i := 0;
    while i < n
      invariant coll.entries == old(coll.entries) + es[..Min(i, n)]
      invariant coll.batchLog + Batches(es[Min(i, n)..], BatchSize) == old(coll.batchLog) + Batches(es, BatchSize)
      decreases n - i
    {
      var end := Min(i + BatchSize, n);
      ZipSlice(allIds, allChunks, allMetadatas, i, end);
      BatchesStep(es, BatchSize, i);
      assert es[..end] == es[..i] + es[i..end];
      coll.Add(allIds[i..end], allChunks[i..end], allMetadatas[i..end]);
      i := i + BatchSize;
      assert Min(i, n) == end;
    }
    assert es[..n] == es;
  }

  // ---------------------------------------------------------------------------
  // get_stats

  ghost predicate NoDuplicates<T>(xs: seq<T>)
  {
    forall i, j :: 0 <= i < j < |xs| ==> xs[i] != xs[j]
  }

  /** `set(m['source'] for m in metadatas)` listed: a `KeyError` exactly when some
      dictionary has no "source" key, and otherwise each "source" value once. The
      order is Python's set order, which the model fixes to first occurrence. */
  function SampleSources(ms: seq<Metadata>): (r: Result<seq<MetaValue>, PyError>)
    ensures r.Err? <==> exists i :: 0 <= i < |ms| && "source" !in ms[i]
    ensures r.Err? ==> r.error == KeyError("source")
    ensures r.Ok? ==> NoDuplicates(r.value) && |r.value| <= |ms|
    ensures r.Ok? ==> forall v :: v in r.value <==> exists i :: 0 <= i < |ms| && ms[i]["source"] == v
    decreases |ms|
  {
    if ms == [] then Ok([])
    else
      var init := ms[..|ms| - 1];
      var m := ms[|ms| - 1];
      match SampleSources(init)
      case Err(e) => Err(e)
      case Ok(vs) =>
        if "source" !in m then Err(KeyError("source"))
        else if m["source"] in vs then Ok(vs)
        else Ok(vs + [m["source"]])
  }

  /** The statistics of a collection holding `entries`. */
  function StatsOf(name: string, embeddingModel: string, entries: seq<Entry>): Result<Stats, PyError>
  {
    if |entries| == 0 then Ok(Stats(name, 0, [], embeddingModel))
    else
      match SampleSources(MetadataOf(entries[..Min(|entries|, StatsSampleSize)]))
      case Err(e) => Err(e)
      case Ok(sources) => Ok(Stats(name, |entries|, sources, embeddingModel))
  }

  /** An empty collection reports no source; otherwise the sources are the distinct
      "source" values of the first min(count, 10) entries, so at most 10 without
      repetition, and a `KeyError` is raised exactly when one of those entries has no
      "source". The name, model and count are reported as they are. */
  lemma StatsSpec(name: string, embeddingModel: string, entries: seq<Entry>)
    ensures |entries| == 0 ==> StatsOf(name, embeddingModel, entries) == Ok(Stats(name, 0, [], embeddingModel))
    ensures StatsOf(name, embeddingModel, entries).Err? <==>
              exists i :: 0 <= i < Min(|entries|, StatsSampleSize) && "source" !in entries[i].metadata
    ensures StatsOf(name, embeddingModel, entries).Ok? ==>
              var s := StatsOf(name, embeddingModel, entries).value;
              s.collectionName == name && s.embeddingModel == embeddingModel && s.totalChunks == |entries|
              && |s.sources| <= StatsSampleSize && NoDuplicates(s.sources)
              && forall v :: v in s.sources <==>
                   exists i :: 0 <= i < Min(|entries|, StatsSampleSize) && entries[i].metadata["source"] == v
  {
    if |entries| > 0 {
      var sample := entries[..Min(|entries|, StatsSampleSize)];
      var ms := MetadataOf(sample);
      assert forall i :: 0 <= i < |ms| ==> ms[i] == entries[i].metadata;
    }
  }

  // ---------------------------------------------------------------------------
  // The engine

  class RagEngine {
    const collectionName: string
    const embeddingModel: string
    var collection: Collection

    /** The engine's collection is the one named `collectionName`. */
    ghost predicate Valid()
      reads this
    {
      collection.name == collectionName
    }

    /** `RAGEngine(collection_name)`: opens the collection of that name, holding
        `persisted` (nothing for a name never used before). */
    constructor (collectionName: string, embeddingModel: string, persisted: seq<Entry>)
      ensures Valid() && this.collectionName == collectionName && this.embeddingModel == embeddingModel
      ensures fresh(collection) && collection.entries == persisted && collection.batchLog == []
    {
      this.collectionName := collectionName;
      this.embeddingModel := embeddingModel;
      collection := new Collection(collectionName, persisted);
    }

    /** `load_documents(force_reload)`, with the knowledge-base files given. A
        non-empty collection is left alone unless a reload is forced; a forced reload
        starts from an empty collection of the same name. Otherwise the entries of all
        files are added, in batches of 100, and their number is returned. */
    method LoadDocuments(files: seq<SourceFile>, forceReload: bool) returns (n: nat)
      requires Valid()
      modifies this, collection
      ensures Valid()
      ensures old(|collection.entries|) > 0 && !forceReload ==>
                n == old(|collection.entries|) && collection == old(collection)
                && collection.entries == old(collection.entries) && collection.batchLog == old(collection.batchLog)
      ensures forceReload ==> fresh(collection)
      ensures !forceReload ==> collection == old(collection)
      ensures forceReload || old(|collection.entries|) == 0 ==>
                n == |LoadEntries(files)| && collection.entries == LoadEntries(files)
                && collection.batchLog == (if forceReload then [] else old(collection.batchLog))
                                          + Batches(LoadEntries(files), BatchSize)
    {
      var count := collection.Count();
      if count > 0 && !forceReload {
        return count;
      }
      if forceReload {
        collection := new Collection(collectionName, []);
      }
      if |files| == 0 {
        return 0;
      }
      var allChunks, allMetadatas, allIds := CollectChunks(files);
      AddInBatches(collection, allIds, allChunks, allMetadatas);
      n := |allChunks|;
    }

    /** `get_stats()`. */
    method GetStats() returns (r: Result<Stats, PyError>)
      requires Valid()
      ensures r == StatsOf(collectionName, embeddingModel, collection.entries)
    {
      var count := collection.Count();
      if count > 0 {
        var sample := collection.Get(Min(count, StatsSampleSize));
        assert sample == MetadataOf(collection.entries[..Min(count, StatsSampleSize)]);
        match SampleSources(sample)
        case Err(e) =>
          r := Err(e);
        case Ok(sources) =>
          r := Ok(Stats(collectionName, count, sources, embeddingModel));
      } else {
        r := Ok(Stats(collectionName, count, [], embeddingModel));
      }
    }

    /** `reset()`: the collection is deleted and an empty one of the same name
        takes its place. */
    method Reset()
      requires Valid()
      modifies this
      ensures Valid() && fresh(collection) && collection.entries == [] && collection.batchLog == []
    {
      collection := new Collection(collectionName, []);
    }

    /** `retrieve(query, top_k, filter_source)`: one query to the store, sent with
        the `where` filter, and the records built from its answer. */
    method Retrieve(query: string, topK: int, filterSource: Option<string>,
                    search: (seq<Entry>, QueryRequest) -> QueryResponse)
      returns (r: Result<seq<Record>, PyError>)
      ensures RecordsOf(search(collection.entries, Request(query, topK, filterSource)), r)
    {
      var whereFilter := WhereFilter(filterSource);
      var results := search(collection.entries, QueryRequest([query], topK, whereFilter));
      r := Records(results);
    }

    /** `retrieve_with_context(query, top_k)`: the context rendered from the records
        of an unfiltered retrieval. */
    method RetrieveWithContext(query: string, topK: int, search: (seq<Entry>, QueryRequest) -> QueryResponse)
      returns (r: Result<string, PyError>)
      ensures var resp := search(collection.entries, Request(query, topK, None));
              (r.Ok? <==> Aligned(resp))
              && (r.Err? ==> r.error == IndexError)
              && (r.Ok? ==> exists rs :: RecordsOf(resp, Ok(rs)) && r.value == Context(rs))
    {
      var chunks := Retrieve(query, topK, None, search);
      match chunks
      case Err(e) =>
        r := Err(e);
      case Ok(rs) =>
        var context := FormatContext(rs);
        r := Ok(context);
    }
  }
}

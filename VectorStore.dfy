/** The part of the ChromaDB collection that the RAG engine uses: entries of
    (id, document, metadata) with `count`, `add` and `get(limit=…)`. Embeddings and
    nearest-neighbour ranking belong to the store and are not modelled; a query is
    an input (see module Retrieval). */
module VectorStore {
  import opened Wrappers

  /** A metadata value: Chroma stores strings and integers (the engine writes both). */
  datatype MetaValue = Str(s: string) | Int(i: int)

  /** A metadata dictionary. */
  type Metadata = map<string, MetaValue>

  /** One stored record. */
  datatype Entry = Entry(id: string, document: string, metadata: Metadata)

  /** The three parallel lists handed to `add`, paired up position by position. */
  function Zip(ids: seq<string>, documents: seq<string>, metadatas: seq<Metadata>): (es: seq<Entry>)
    requires |ids| == |documents| == |metadatas|
    ensures |es| == |ids|
  {
    seq(|ids|, i requires 0 <= i < |ids| => Entry(ids[i], documents[i], metadatas[i]))
  }

  function MetadataOf(es: seq<Entry>): (ms: seq<Metadata>)
    ensures |ms| == |es|
  {
    seq(|es|, i requires 0 <= i < |es| => es[i].metadata)
  }

  /** A named collection. `batchLog` records, for the proofs only, the batches that
      `Add` received since this collection object was created. */
  class Collection {
    const name: string
    var entries: seq<Entry>
    ghost var batchLog: seq<seq<Entry>>

    /** A collection opened under `name`; `persisted` is whatever the store already
        held under that name (empty for a collection created afresh). */
    constructor (name: string, persisted: seq<Entry>)
      ensures this.name == name && entries == persisted && batchLog == []
    {
      this.name := name;
      entries := persisted;
      batchLog := [];
    }

    method Count() returns (n: nat)
      ensures n == |entries|
    {
      n := |entries|;
    }

    /** `collection.add(documents=…, metadatas=…, ids=…)`: the store refuses empty or
        misaligned lists, so a caller must pass three non-empty lists of one length. */
    method Add(ids: seq<string>, documents: seq<string>, metadatas: seq<Metadata>)
      requires |ids| == |documents| == |metadatas| > 0
      modifies this
      ensures entries == old(entries) + Zip(ids, documents, metadatas)
      ensures batchLog == old(batchLog) + [Zip(ids, documents, metadatas)]
    {
      entries := entries + Zip(ids, documents, metadatas);
      batchLog := batchLog + [Zip(ids, documents, metadatas)];
    }

    /** The metadatas of `collection.get(limit=limit)`: the first `limit` entries. */
    method Get(limit: nat) returns (metadatas: seq<Metadata>)
      ensures |metadatas| == Min(limit, |entries|)
      ensures forall i :: 0 <= i < |metadatas| ==> metadatas[i] == entries[i].metadata
    {
      metadatas := MetadataOf(entries[..Min(limit, |entries|)]);
    }
  }
}

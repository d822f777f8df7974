/** Retrieval as the engine sees it: the `where` filter it sends with a query, the
    records it builds from the store's answer, and the context text it renders from
    those records for the language model. The ranking itself is the store's. */
module Retrieval {
  import opened Wrappers
  import opened PyStr
  import opened VectorStore

  /** What `retrieve_with_context` returns when nothing was retrieved: the sentence
      "No relevant information found in the knowledge base.", written in pieces
      because the verifier cannot see the characters of a literal this long. */
  const NoContext: string := "No relevant " + "information found " + "in the knowledge base."
  /** What separates two rendered blocks of context. */
  const BlockSeparator: string := "\n\n---\n\n"
  /** What a block shows for a metadata key the record does not have. */
  const Unknown: string := "unknown"

  /** `collection.query(query_texts=…, n_results=…, where=…)`. */
  datatype QueryRequest = QueryRequest(queryTexts: seq<string>, nResults: int, where: Option<Metadata>)

  /** The store's answer: one inner list per query text. `distances` is `None` when the
      answer has no "distances" key. */
  datatype QueryResponse = QueryResponse(
    ids: seq<seq<string>>,
    documents: seq<seq<string>>,
    metadatas: seq<seq<Metadata>>,
    distances: Option<seq<seq<real>>>)

  /** One record of `retrieve`'s result. */
  datatype Record = Record(text: string, metadata: Metadata, distance: Option<real>, id: string)

  // ---------------------------------------------------------------------------
  // retrieve

  /** The `where` filter: `{"source": filter_source}` exactly when `filter_source` is
      truthy, that is, given and not the empty string. */
  function WhereFilter(filterSource: Option<string>): (w: Option<Metadata>)
    ensures w.Some? <==> filterSource.Some? && filterSource.value != ""
    ensures w.Some? ==> w.value.Keys == {"source"} && w.value["source"] == Str(filterSource.value)
  {
    if filterSource.Some? && filterSource.value != "" then Some(map["source" := Str(filterSource.value)])
    else None
  }

  /** The query `retrieve` sends for one query text. */
  function Request(query: string, topK: int, filterSource: Option<string>): QueryRequest
  {
    QueryRequest([query], topK, WhereFilter(filterSource))
  }

  /** The first `n` positions of the first metadata, distance and id lists exist. */
  ghost predicate AlignedUpTo(resp: QueryResponse, n: nat)
  {
    n == 0 ||
    (&& |resp.metadatas| > 0 && |resp.metadatas[0]| >= n
     && (resp.distances.Some? ==> |resp.distances.value| > 0 && |resp.distances.value[0]| >= n)
     && |resp.ids| > 0 && |resp.ids[0]| >= n)
  }

  /** Every position of the first document list has its metadata, distance and id. */
  ghost predicate Aligned(resp: QueryResponse)
  {
    |resp.documents| > 0 && AlignedUpTo(resp, |resp.documents[0]|)
  }

  /** What the record-building loop of `retrieve` produces from an answer: an
      `IndexError` exactly when the answer's lists are too short to index, and
      otherwise one record per returned document, in returned order, pairing the i-th
      document with the i-th metadata, distance and id. */
  ghost predicate RecordsOf(resp: QueryResponse, r: Result<seq<Record>, PyError>)
  {
    && (r.Ok? <==> Aligned(resp))
    && (r.Err? ==> r.error == IndexError)
    && (r.Ok? ==>
          |r.value| == |resp.documents[0]|
          && forall i :: 0 <= i < |r.value| ==>
               r.value[i] == Record(resp.documents[0][i], resp.metadatas[0][i],
                                    if resp.distances.Some? then Some(resp.distances.value[0][i]) else None,
                                    resp.ids[0][i]))
  }

  /** The `for i in range(len(results['documents'][0]))` loop of `retrieve`. */
  method Records(resp: QueryResponse) returns (r: Result<seq<Record>, PyError>)
    ensures RecordsOf(resp, r)
  {
    if |resp.documents| == 0 {
      return Err(IndexError);
    }
    var documents := resp.documents[0];
    var retrieved: seq<Record> := [];
    var i := 0;
    while i < |documents|
      invariant 0 <= i <= |documents|
      invariant AlignedUpTo(resp, i)
      invariant |retrieved| == i
      invariant forall j :: 0 <= j < i ==>
                  retrieved[j] == Record(documents[j], resp.metadatas[0][j],
                                         if resp.distances.Some? then Some(resp.distances.value[0][j]) else None,
                                         resp.ids[0][j])
    {
      if |resp.metadatas| == 0 || i >= |resp.metadatas[0]| {
        return Err(IndexError);
      }
      var distance: Option<real> := None;
      if resp.distances.Some? {
        if |resp.distances.value| == 0 || i >= |resp.distances.value[0]| {
          return Err(IndexError);
        }
        distance := Some(resp.distances.value[0][i]);
      }
      if |resp.ids| == 0 || i >= |resp.ids[0]| {
        return Err(IndexError);
      }
      retrieved := retrieved + [Record(documents[i], resp.metadatas[0][i], distance, resp.ids[0][i])];
      i := i + 1;
    }
    return Ok(retrieved);
  }

  // ---------------------------------------------------------------------------
  // retrieve_with_context

  /** How an f-string shows a metadata value. */
  function Render(v: MetaValue): string
  {
    match v
    case Str(s) => s
    case Int(n) => IntToString(n)
  }

  /** `metadata.get(key, 'unknown')`, as an f-string shows it. */
  function MetaText(metadata: Metadata, key: string): string
  {
    if key in metadata then Render(metadata[key]) else Unknown
  }

  /** The block for the record ranked `i` (counting from 1). */
  function Block(i: nat, rec: Record): string
  {
    "[Source " + NatToString(i) + ": " + MetaText(rec.metadata, "source") + " - "
    + MetaText(rec.metadata, "section") + "]\n" + rec.text
  }

  /** The blocks of the records, numbered 1, 2, … in rank order. */
  function Blocks(rs: seq<Record>): (bs: seq<string>)
    ensures |bs| == |rs|
  {
    seq(|rs|, j requires 0 <= j < |rs| => Block(j + 1, rs[j]))
  }

  /** The context for a ranked list of records. */
  function Context(rs: seq<Record>): string
  {
    if rs == [] then NoContext else Join(Blocks(rs), BlockSeparator)
  }

  /** The formatting part of `retrieve_with_context`, for the records `retrieve`
      returned. */
  method FormatContext(rs: seq<Record>) returns (context: string)
    ensures context == Context(rs)
  {
    if rs == [] {
      return NoContext;
    }
    var parts: seq<string> := [];
    var i := 0;
    while i < |rs|
      invariant 0 <= i <= |rs|
      invariant parts == Blocks(rs[..i])
    {
      var source := MetaText(rs[i].metadata, "source");
      var section := MetaText(rs[i].metadata, "section");
      parts := parts + ["[Source " + NatToString(i + 1) + ": " + source + " - " + section + "]\n" + rs[i].text];
      i := i + 1;
    }
    assert rs[..|rs|] == rs;
    context := Join(parts, BlockSeparator);
  }

  /** Every block starts with "[Source ". */
  lemma BlockStart(i: nat, rec: Record)
    ensures |Block(i, rec)| >= 8 && Block(i, rec)[..8] == "[Source "
  {
    var b := Block(i, rec);
    assert b == "[Source " + (NatToString(i) + ": " + MetaText(rec.metadata, "source") + " - "
                + MetaText(rec.metadata, "section") + "]\n" + rec.text);
  }

  /** A non-empty result renders as text starting with "[Source ", so the sentinel is
      returned exactly when nothing was retrieved. */
  lemma ContextSentinel(rs: seq<Record>)
    ensures Context(rs) == NoContext <==> rs == []
    ensures rs != [] ==> |Context(rs)| >= 8 && Context(rs)[..8] == "[Source "
  {
    if rs != [] {
      var bs := Blocks(rs);
      BlockStart(1, rs[0]);
      JoinFirst(bs, BlockSeparator);
      var c := Context(rs);
      assert c[..|bs[0]|] == bs[0];
      assert c[..8] == bs[0][..8];
      assert NoContext[0] == 'N';
      assert c[0] == '[';
    }
  }

  /** Ranking one more record appends a separator and its block, numbered one past
      the others. */
  lemma ContextSnoc(rs: seq<Record>, r: Record)
    requires rs != []
    ensures Context(rs + [r]) == Context(rs) + BlockSeparator + Block(|rs| + 1, r)
  {
    assert Blocks(rs + [r]) == Blocks(rs) + [Block(|rs| + 1, r)];
    JoinSnoc(Blocks(rs), Block(|rs| + 1, r), BlockSeparator);
  }

  /** A record without a "section" key shows "unknown" as its section. */
  lemma MissingSectionBlock(i: nat, rec: Record)
    requires "section" !in rec.metadata
    ensures Block(i, rec) == "[Source " + NatToString(i) + ": " + MetaText(rec.metadata, "source") + " - unknown]\n" + rec.text
  {
  }

  /** A record without a "source" key shows "unknown" as its source. */
  lemma MissingSourceBlock(i: nat, rec: Record)
    requires "source" !in rec.metadata
    ensures Block(i, rec) == "[Source " + NatToString(i) + ": unknown - " + MetaText(rec.metadata, "section") + "]\n" + rec.text
  {
  }

  /** The second-ranked record of source "agile", which has no "section" key. */
  lemma UnknownSectionBlock()
    ensures Block(2, Record("B", map["source" := Str("agile")], None, "agile_chunk_3"))
            == "[Source 2: agile - unknown]\nB"
  {
    var r := Record("B", map["source" := Str("agile")], None, "agile_chunk_3");
    assert NatToString(2) == "2";
    assert MetaText(r.metadata, "source") == "agile" && MetaText(r.metadata, "section") == "unknown";
  }
}

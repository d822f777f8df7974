/** `RAGEngine._chunk_document`: a document is cut into sections at every "\n===",
    each non-blank section yields either one chunk (a short body) or a run of
    overlapping fixed-width windows (a long body). */
module Chunker {
  import opened Wrappers
  import opened PyStr
  import opened VectorStore

  /** The text a section heading starts with, after the line break that ends the
      previous section. */
  const SectionMarker: string := "\n==="
  /** The characters `strip('= ')` removes from a heading line. */
  const HeadingTrim: set<char> := {'=', ' '}
  /** Windows of fewer raw characters than this are dropped. */
  const MinChunkLength: nat := 100

  /** What the source records about a chunk. `chunkIndex` is present only for a
      window of an oversized body; `chunkSize` is the length of the raw, unstripped
      text the chunk was made from. */
  datatype ChunkMetadata = ChunkMetadata(
    source: string,
    section: string,
    chunkIndex: Option<nat>,
    chunkSize: nat)
  {
    /** The metadata dictionary the source builds for the store. */
    function AsDict(): (d: Metadata)
      ensures d.Keys == {"source", "section", "chunk_size"} + (if chunkIndex.Some? then {"chunk_index"} else {})
      ensures d["source"] == Str(source) && d["section"] == Str(section)
      ensures d["chunk_size"] == Int(chunkSize)
      ensures chunkIndex.Some? ==> d["chunk_index"] == Int(chunkIndex.value)
    {
      var d := map["source" := Str(source), "section" := Str(section), "chunk_size" := Int(chunkSize)];
      if chunkIndex.Some? then d["chunk_index" := Int(chunkIndex.value)] else d
    }
  }

  datatype Chunk = Chunk(text: string, metadata: ChunkMetadata)

  // ---------------------------------------------------------------------------
  // Specification

  /** The heading of a (stripped) section: its first line with '=' and ' ' stripped,
      then whitespace stripped. */
  function SectionTitle(section: string): string
  {
    var lines := Split(section, "\n");
    Strip(Strip(lines[0], HeadingTrim), Whitespace)
  }

  /** The body of a (stripped) section: the lines after the first, or the whole
      section when it is a single line. */
  function SectionBody(section: string): string
  {
    var lines := Split(section, "\n");
    if |lines| > 1 then Join(lines[1..], "\n") else section
  }

  /** `body[start:start + chunkSize]` for a start inside the body. */
  function RawWindow(body: string, chunkSize: nat, start: nat): (w: string)
    requires start < |body|
    ensures |w| == Min(chunkSize, |body| - start)
  {
    body[start..Min(start + chunkSize, |body|)]
  }

  /** Python's `n // d` for `n >= 0` and `d > 0`, by repeated subtraction
      (`FloorDivIsDiv` ties it to division). */
  function FloorDiv(n: nat, d: nat): nat
    requires d > 0
    decreases n
  {
    if n < d then 0 else 1 + FloorDiv(n - d, d)
  }

  /** What the window starting at `start` contributes: nothing when it has fewer
      than 100 raw characters, otherwise its stripped text, numbered `start // step`. */
  function WindowPiece(body: string, title: string, source: string, chunkSize: nat, step: nat, start: nat): seq<Chunk>
    requires step > 0 && start < |body|
  {
    var raw := RawWindow(body, chunkSize, start);
    if |raw| < MinChunkLength then []
    else [Chunk(Strip(raw, Whitespace), ChunkMetadata(source, title, Some(FloorDiv(start, step)), |raw|))]
  }

  /** The chunks made from the windows starting at `start`, `start + step`, … up to
      the end of the body. */
  function WindowChunks(body: string, title: string, source: string, chunkSize: nat, step: nat, start: nat): seq<Chunk>
    requires step > 0
    decreases |body| - start
  {
    if start >= |body| then []
    else WindowPiece(body, title, source, chunkSize, step, start) + WindowChunks(body, title, source, chunkSize, step, start + step)
  }

  /** The chunks of one section as `split` returned it (before stripping). */
  function SectionChunks(rawSection: string, source: string, chunkSize: nat, overlap: nat): seq<Chunk>
    requires overlap < chunkSize
  {
    var section := Strip(rawSection, Whitespace);
    if section == [] then []
    else
      var title := SectionTitle(section);
      var body := SectionBody(section);
      if |body| <= chunkSize then
        [Chunk(Strip(body, Whitespace), ChunkMetadata(source, title, None, |body|))]
      else
        WindowChunks(body, title, source, chunkSize, chunkSize - overlap, 0)
  }

  function ChunkSections(sections: seq<string>, source: string, chunkSize: nat, overlap: nat): seq<Chunk>
    requires overlap < chunkSize
  {
    if sections == [] then []
    else SectionChunks(sections[0], source, chunkSize, overlap) + ChunkSections(sections[1..], source, chunkSize, overlap)
  }

  /** `_chunk_document(content, source, chunk_size, overlap)`. */
  function Chunks(content: string, source: string, chunkSize: nat, overlap: nat): seq<Chunk>
    requires overlap < chunkSize
  {
    ChunkSections(Split(content, SectionMarker), source, chunkSize, overlap)
  }

  // ---------------------------------------------------------------------------
  // The algorithm as the source runs it

  method ChunkDocument(content: string, source: string, chunkSize: nat, overlap: nat) returns (chunks: seq<Chunk>)
    requires overlap < chunkSize
    ensures chunks == Chunks(content, source, chunkSize, overlap)
  {
    var sections := Split(content, SectionMarker);
    chunks := [];
    var s := 0;
    while s < |sections|
      invariant 0 <= s <= |sections|
      invariant chunks == ChunkSections(sections[..s], source, chunkSize, overlap)
    {
      var sectionChunks := ChunkSection(sections[s], source, chunkSize, overlap);
      ChunkSectionsAppend(sections[..s], [sections[s]], source, chunkSize, overlap);
      assert sections[..s + 1] == sections[..s] + [sections[s]];
      chunks := chunks + sectionChunks;
      s := s + 1;
    }
    assert sections[..|sections|] == sections;
  }

  /** The body of `_chunk_document`'s loop over sections, for one section. */
  method ChunkSection(rawSection: string, source: string, chunkSize: nat, overlap: nat) returns (chunks: seq<Chunk>)
    requires overlap < chunkSize
    ensures chunks == SectionChunks(rawSection, source, chunkSize, overlap)
  {
    chunks := [];
    var section := Strip(rawSection, Whitespace);
    if section != [] {
      var lines := Split(section, "\n");
      var title := Strip(Strip(lines[0], HeadingTrim), Whitespace);
      var body := if |lines| > 1 then Join(lines[1..], "\n") else section;
      if |body| <= chunkSize {
        chunks := [Chunk(Strip(body, Whitespace), ChunkMetadata(source, title, None, |body|))];
      } else {
        chunks := CutWindows(body, title, source, chunkSize, overlap);
      }
    }
  }

  /** The `for i in range(0, len(section_text), chunk_size - overlap)` loop of
      `_chunk_document` over an oversized body. */
  method CutWindows(body: string, title: string, source: string, chunkSize: nat, overlap: nat) returns (chunks: seq<Chunk>)
    requires overlap < chunkSize
    ensures chunks == WindowChunks(body, title, source, chunkSize, chunkSize - overlap, 0)
  {
    var step := chunkSize - overlap;
    chunks := [];
    var i := 0;
    while i < |body|
      invariant chunks + WindowChunks(body, title, source, chunkSize, step, i)
                == WindowChunks(body, title, source, chunkSize, step, 0)
      decreases |body| - i
    {
      var chunkText := body[i..Min(i + chunkSize, |body|)];
      if |chunkText| >= MinChunkLength {
        chunks := chunks + [Chunk(Strip(chunkText, Whitespace), ChunkMetadata(source, title, Some(FloorDiv(i, step)), |chunkText|))];
      }
      i := i + step;
    }
  }

  // ---------------------------------------------------------------------------
  // Sectioning and order

  /** Chunks come out section by section, in section order. */
  lemma {:induction false} ChunkSectionsAppend(a: seq<string>, b: seq<string>, source: string, chunkSize: nat, overlap: nat)
    requires overlap < chunkSize
    ensures ChunkSections(a + b, source, chunkSize, overlap)
            == ChunkSections(a, source, chunkSize, overlap) + ChunkSections(b, source, chunkSize, overlap)
    decreases |a|
  {
    if a == [] {
      assert a + b == b;
    } else {
      assert (a + b)[1..] == a[1..] + b;
      ChunkSectionsAppend(a[1..], b, source, chunkSize, overlap);
    }
  }

  lemma {:induction false} BlankSectionsNoChunks(sections: seq<string>, source: string, chunkSize: nat, overlap: nat)
    requires overlap < chunkSize
    requires forall i :: 0 <= i < |sections| ==> AllIn(sections[i], Whitespace)
    ensures ChunkSections(sections, source, chunkSize, overlap) == []
    decreases |sections|
  {
    if sections != [] {
      StripSpec(sections[0], Whitespace);
      BlankSectionsNoChunks(sections[1..], source, chunkSize, overlap);
    }
  }

  /** Empty or whitespace-only content gives no chunk. */
  lemma BlankContentNoChunks(content: string, source: string, chunkSize: nat, overlap: nat)
    requires overlap < chunkSize
    requires AllIn(content, Whitespace)
    ensures Chunks(content, source, chunkSize, overlap) == []
  {
    SplitAllIn(content, SectionMarker, Whitespace);
    BlankSectionsNoChunks(Split(content, SectionMarker), source, chunkSize, overlap);
  }

  /** A section's title comes from the text before its first line break, and its
      body is the text after it; a section without a line break is its own title line
      and its own body. */
  lemma SectionLines(section: string)
    ensures Find(section, "\n").None? ==>
              Split(section, "\n")[0] == section
              && SectionTitle(section) == Strip(Strip(section, HeadingTrim), Whitespace)
              && SectionBody(section) == section
    ensures Find(section, "\n").Some? ==>
              var k := Find(section, "\n").value;
              k < |section| && section[k] == '\n'
              && Split(section, "\n")[0] == section[..k]
              && SectionTitle(section) == Strip(Strip(section[..k], HeadingTrim), Whitespace)
              && SectionBody(section) == section[k + 1..]
  {
    match Find(section, "\n")
    case None =>
    case Some(k) =>
      assert section[k..k + 1] == "\n";
      var lines := Split(section, "\n");
      assert lines[1..] == Split(section[k + 1..], "\n");
  }

  /** The body of a non-blank stripped section is never blank: it ends with the
      section's last character, which is not whitespace. */
  lemma BodyNotBlank(rawSection: string)
    requires Strip(rawSection, Whitespace) != []
    ensures var body := SectionBody(Strip(rawSection, Whitespace));
            |body| >= 1 && !AllIn(body, Whitespace)
  {
    var section := Strip(rawSection, Whitespace);
    StripSpec(rawSection, Whitespace);
    SectionLines(section);
    var body := SectionBody(section);
    if Find(section, "\n").Some? {
      var k := Find(section, "\n").value;
      assert '\n' in Whitespace;
      assert k + 1 < |section|;
      assert body[|body| - 1] == section[|section| - 1];
    } else {
      assert body[0] == section[0];
    }
  }

  /** A body of at most `chunkSize` characters yields exactly one chunk: the stripped
      body, never empty, recording the unstripped length and no index. */
  lemma SmallSection(rawSection: string, source: string, chunkSize: nat, overlap: nat)
    requires overlap < chunkSize
    requires Strip(rawSection, Whitespace) != []
    requires |SectionBody(Strip(rawSection, Whitespace))| <= chunkSize
    ensures var section := Strip(rawSection, Whitespace);
            var body := SectionBody(section);
            var cs := SectionChunks(rawSection, source, chunkSize, overlap);
            |cs| == 1
            && cs[0].text == Strip(body, Whitespace) && cs[0].text != []
            && cs[0].metadata == ChunkMetadata(source, SectionTitle(section), None, |body|)
  {
    BodyNotBlank(rawSection);
    StripSpec(SectionBody(Strip(rawSection, Whitespace)), Whitespace);
  }

  // ---------------------------------------------------------------------------
  // Windows of an oversized body

  /** Where window `k` of a body starts when windows advance by `step`
      (`k * step`, written as repeated addition). */
  function WindowStart(k: nat, step: nat): nat
  {
    if k == 0 then 0 else WindowStart(k - 1, step) + step
  }

  lemma {:induction false} WindowStartIsProduct(k: nat, step: nat)
    ensures WindowStart(k, step) == k * step
  {
    if k > 0 {
      WindowStartIsProduct(k - 1, step);
      assert k * step == (k - 1) * step + step;
    }
  }

  lemma {:induction false} StartsIncrease(k: nat, m: nat, step: nat)
    requires k <= m
    ensures WindowStart(k, step) <= WindowStart(m, step)
    decreases m
  {
    if k < m {
      StartsIncrease(k, m - 1, step);
    }
  }

  /** The source's `i // step` recovers the window number from its start. */
  lemma {:induction false} WindowNumberOfStart(k: nat, step: nat)
    requires step > 0
    ensures FloorDiv(WindowStart(k, step), step) == k
  {
    if k > 0 {
      WindowNumberOfStart(k - 1, step);
    }
  }

  /** `FloorDiv` is division: `n == q * d + r` with `0 <= r < d`. */
  lemma {:induction false} FloorDivIsDiv(n: nat, d: nat)
    requires d > 0
    ensures FloorDiv(n, d) == n / d
    decreases n
  {
    if n >= d {
      FloorDivIsDiv(n - d, d);
      DivUnique(n, d, (n - d) / d + 1, (n - d) % d);
    } else {
      DivUnique(n, d, 0, n);
    }
  }

  lemma {:induction false} MulAtLeast(n: nat, d: nat)
    requires n >= 1
    ensures n * d >= d
  {
    if n > 1 {
      MulAtLeast(n - 1, d);
      assert n * d == (n - 1) * d + d;
    }
  }

  lemma MulMono(a: int, b: int, d: nat)
    requires d > 0 && a < b
    ensures a * d + d <= b * d
  {
    assert b * d - a * d == (b - a) * d;
    MulAtLeast(b - a, d);
  }

  lemma DivUnique(x: int, d: int, q: int, r: int)
    requires d > 0 && 0 <= r < d && x == q * d + r
    ensures x / d == q
  {
    var q', r' := x / d, x % d;
    assert x == q' * d + r';
    if q' < q { MulMono(q', q, d); }
    if q < q' { MulMono(q, q', d); }
  }

  /** What a window chunk is: the stripped window number `m`, which has between 100
      and `chunkSize` raw characters, records that raw length and the number `m`, and
      carries the section's source and title. */
  ghost predicate IsWindowChunk(c: Chunk, body: string, title: string, source: string, chunkSize: nat, step: nat)
  {
    && c.metadata.chunkIndex.Some?
    && WindowStart(c.metadata.chunkIndex.value, step) < |body|
    && var raw := RawWindow(body, chunkSize, WindowStart(c.metadata.chunkIndex.value, step));
    && c.text == Strip(raw, Whitespace)
    && c.metadata.chunkSize == |raw|
    && MinChunkLength <= c.metadata.chunkSize <= chunkSize
    && c.metadata.source == source
    && c.metadata.section == title
  }

  /** Every chunk of `w` is a window chunk numbered `k` or later. */
  ghost predicate WindowChunksFrom(w: seq<Chunk>, body: string, title: string, source: string, chunkSize: nat, step: nat, k: nat)
  {
    forall j :: 0 <= j < |w| ==>
      IsWindowChunk(w[j], body, title, source, chunkSize, step) && w[j].metadata.chunkIndex.value >= k
  }

  /** Every chunk of `w` carries a window number of at least `k`. */
  ghost predicate NumberedFrom(w: seq<Chunk>, k: nat)
  {
    forall j :: 0 <= j < |w| ==> w[j].metadata.chunkIndex.Some? && w[j].metadata.chunkIndex.value >= k
  }

  /** The chunks of `w` all carry a window number, strictly increasing along `w`. */
  ghost predicate IndicesIncrease(w: seq<Chunk>)
  {
    forall i, j :: 0 <= i < j < |w| ==>
      w[i].metadata.chunkIndex.Some? && w[j].metadata.chunkIndex.Some?
      && w[i].metadata.chunkIndex.value < w[j].metadata.chunkIndex.value
  }

  /** Some chunk of `w` is window number `m`. */
  ghost predicate HasWindow(w: seq<Chunk>, m: nat)
  {
    exists j :: 0 <= j < |w| && w[j].metadata.chunkIndex == Some(m)
  }

  /** Every chunk of a long body, from window `k` on, is a window chunk numbered `k`
      or later. */
  lemma {:induction false} WindowChunksSound(body: string, title: string, source: string, chunkSize: nat, step: nat, k: nat)
    requires step > 0
    ensures WindowChunksFrom(WindowChunks(body, title, source, chunkSize, step, WindowStart(k, step)),
                             body, title, source, chunkSize, step, k)
    decreases |body| - WindowStart(k, step)
  {
    var start := WindowStart(k, step);
    if start < |body| {
      assert WindowStart(k + 1, step) == start + step;
      WindowChunksSound(body, title, source, chunkSize, step, k + 1);
      WindowNumberOfStart(k, step);
      var piece := WindowPiece(body, title, source, chunkSize, step, start);
      var rest := WindowChunks(body, title, source, chunkSize, step, start + step);
      var w := WindowChunks(body, title, source, chunkSize, step, start);
      assert w == piece + rest;
      forall j | 0 <= j < |w|
        ensures IsWindowChunk(w[j], body, title, source, chunkSize, step) && w[j].metadata.chunkIndex.value >= k
      {
        if j < |piece| {
          assert w[j] == piece[0];
        } else {
          assert w[j] == rest[j - |piece|];
        }
      }
    }
  }

  /** The windows from `start` on are numbered from `start // step` on. */
  lemma {:induction false} WindowNumbersFrom(body: string, title: string, source: string, chunkSize: nat, step: nat, start: nat)
    requires step > 0
    ensures NumberedFrom(WindowChunks(body, title, source, chunkSize, step, start), FloorDiv(start, step))
    decreases |body| - start
  {
    if start < |body| {
      WindowNumbersFrom(body, title, source, chunkSize, step, start + step);
      assert FloorDiv(start + step, step) == FloorDiv(start, step) + 1;
      var piece := WindowPiece(body, title, source, chunkSize, step, start);
      var rest := WindowChunks(body, title, source, chunkSize, step, start + step);
      var w := WindowChunks(body, title, source, chunkSize, step, start);
      assert w == piece + rest;
      forall j | 0 <= j < |w|
        ensures w[j].metadata.chunkIndex.Some? && w[j].metadata.chunkIndex.value >= FloorDiv(start, step)
      {
        if j < |piece| {
          assert w[j] == piece[0];
        } else {
          assert w[j] == rest[j - |piece|];
        }
      }
    }
  }

  /** Window chunks appear in increasing window order. */
  lemma {:induction false} WindowChunksOrdered(body: string, title: string, source: string, chunkSize: nat, step: nat, start: nat)
    requires step > 0
    ensures IndicesIncrease(WindowChunks(body, title, source, chunkSize, step, start))
    decreases |body| - start
  {
    if start < |body| {
      assert FloorDiv(start + step, step) == FloorDiv(start, step) + 1;
      WindowNumbersFrom(body, title, source, chunkSize, step, start + step);
      WindowChunksOrdered(body, title, source, chunkSize, step, start + step);
      var piece := WindowPiece(body, title, source, chunkSize, step, start);
      var rest := WindowChunks(body, title, source, chunkSize, step, start + step);
      var w := WindowChunks(body, title, source, chunkSize, step, start);
      assert w == piece + rest;
      forall i, j | 0 <= i < j < |w|
        ensures w[i].metadata.chunkIndex.Some? && w[j].metadata.chunkIndex.Some?
                && w[i].metadata.chunkIndex.value < w[j].metadata.chunkIndex.value
      {
        assert w[j] == rest[j - |piece|];
        if i < |piece| {
          assert w[i] == piece[0];
        } else {
          assert w[i] == rest[i - |piece|];
        }
      }
    }
  }

  /** Every window of at least 100 raw characters is kept, under its number. */
  lemma {:induction false} WindowChunksComplete(body: string, title: string, source: string, chunkSize: nat, step: nat, k: nat, m: nat)
    requires step > 0
    requires k <= m && WindowStart(m, step) < |body|
    requires |RawWindow(body, chunkSize, WindowStart(m, step))| >= MinChunkLength
    ensures HasWindow(WindowChunks(body, title, source, chunkSize, step, WindowStart(k, step)), m)
    decreases m - k
  {
    var start := WindowStart(k, step);
    StartsIncrease(k, m, step);
    var piece := WindowPiece(body, title, source, chunkSize, step, start);
    var rest := WindowChunks(body, title, source, chunkSize, step, start + step);
    var w := WindowChunks(body, title, source, chunkSize, step, start);
    assert w == piece + rest;
    if k == m {
      WindowNumberOfStart(m, step);
      assert w[0] == piece[0];
    } else {
      assert WindowStart(k + 1, step) == start + step;
      WindowChunksComplete(body, title, source, chunkSize, step, k + 1, m);
      var j :| 0 <= j < |rest| && rest[j].metadata.chunkIndex == Some(m);
      assert w[|piece| + j] == rest[j];
    }
  }

  /** A window is full width exactly when it ends inside the body. */
  lemma WindowFull(body: string, chunkSize: nat, start: nat)
    requires start < |body|
    ensures |RawWindow(body, chunkSize, start)| == chunkSize <==> start + chunkSize <= |body|
  {
  }

  /** Overlap: when window k is full width and window k + 1 exists, the last
      `overlap` characters of window k are the first `overlap` characters of
      window k + 1. */
  lemma WindowOverlap(body: string, chunkSize: nat, overlap: nat, k: nat)
    requires overlap < chunkSize
    requires WindowStart(k, chunkSize - overlap) + chunkSize <= |body|
    requires WindowStart(k + 1, chunkSize - overlap) < |body|
    ensures |RawWindow(body, chunkSize, WindowStart(k, chunkSize - overlap))| == chunkSize
    ensures |RawWindow(body, chunkSize, WindowStart(k + 1, chunkSize - overlap))| >= overlap
    ensures RawWindow(body, chunkSize, WindowStart(k, chunkSize - overlap))[chunkSize - overlap..]
            == RawWindow(body, chunkSize, WindowStart(k + 1, chunkSize - overlap))[..overlap]
  {
    var step := chunkSize - overlap;
    var s := WindowStart(k, step);
    assert WindowStart(k + 1, step) == s + step;
    var w0 := RawWindow(body, chunkSize, s);
    var w1 := RawWindow(body, chunkSize, s + step);
    assert w0 == body[s..s + chunkSize];
    assert w0[chunkSize - overlap..] == body[s + step..s + chunkSize];
    assert w1[..overlap] == body[s + step..s + step + overlap];
  }

  /** The 1500-character body with the default sizes (1000, overlap 200): two
      chunks, of 1000 and 700 raw characters, starting at 0 and 800. */
  lemma DefaultWindowsOf1500(body: string, title: string, source: string)
    requires |body| == 1500
    ensures WindowChunks(body, title, source, 1000, 800, 0)
            == [Chunk(Strip(body[..1000], Whitespace), ChunkMetadata(source, title, Some(0), 1000)),
                Chunk(Strip(body[800..], Whitespace), ChunkMetadata(source, title, Some(1), 700))]
  {
    assert RawWindow(body, 1000, 0) == body[..1000];
    assert RawWindow(body, 1000, 800) == body[800..];
    assert FloorDiv(800, 800) == 1;
    assert WindowChunks(body, title, source, 1000, 800, 1600) == [];
  }

  // ---------------------------------------------------------------------------
  // Whole documents

  /** What every chunk of a document satisfies. */
  ghost predicate WellFormedChunk(c: Chunk, source: string, chunkSize: nat)
  {
    && c.metadata.source == source
    && 1 <= c.metadata.chunkSize <= chunkSize
    && (c.metadata.chunkIndex.None? ==> c.text != [])
    && (c.metadata.chunkIndex.Some? ==> c.metadata.chunkSize >= MinChunkLength)
  }

  ghost predicate AllWellFormed(cs: seq<Chunk>, source: string, chunkSize: nat)
  {
    forall j :: 0 <= j < |cs| ==> WellFormedChunk(cs[j], source, chunkSize)
  }

  lemma SectionChunksWellFormed(rawSection: string, source: string, chunkSize: nat, overlap: nat)
    requires overlap < chunkSize
    ensures AllWellFormed(SectionChunks(rawSection, source, chunkSize, overlap), source, chunkSize)
  {
    var section := Strip(rawSection, Whitespace);
    if section != [] {
      var title := SectionTitle(section);
      var body := SectionBody(section);
      if |body| <= chunkSize {
        SmallSection(rawSection, source, chunkSize, overlap);
      } else {
        var step := chunkSize - overlap;
        WindowChunksSound(body, title, source, chunkSize, step, 0);
        assert SectionChunks(rawSection, source, chunkSize, overlap) == WindowChunks(body, title, source, chunkSize, step, 0);
      }
    }
  }

  /** Every chunk of a document carries the document's source, records a raw size
      between 1 and `chunkSize`, is non-empty when it is a whole section, and has at
      least 100 raw characters when it is a window. */
  lemma {:induction false} ChunkSectionsWellFormed(sections: seq<string>, source: string, chunkSize: nat, overlap: nat)
    requires overlap < chunkSize
    ensures AllWellFormed(ChunkSections(sections, source, chunkSize, overlap), source, chunkSize)
    decreases |sections|
  {
    if sections != [] {
      SectionChunksWellFormed(sections[0], source, chunkSize, overlap);
      ChunkSectionsWellFormed(sections[1..], source, chunkSize, overlap);
      var first := SectionChunks(sections[0], source, chunkSize, overlap);
      var rest := ChunkSections(sections[1..], source, chunkSize, overlap);
      var all := ChunkSections(sections, source, chunkSize, overlap);
      assert all == first + rest;
      forall j | 0 <= j < |all| ensures WellFormedChunk(all[j], source, chunkSize) {
        if j >= |first| {
          assert all[j] == rest[j - |first|];
        }
      }
    }
  }

  lemma ChunksWellFormed(content: string, source: string, chunkSize: nat, overlap: nat)
    requires overlap < chunkSize
    ensures AllWellFormed(Chunks(content, source, chunkSize, overlap), source, chunkSize)
  {
    ChunkSectionsWellFormed(Split(content, SectionMarker), source, chunkSize, overlap);
  }
}

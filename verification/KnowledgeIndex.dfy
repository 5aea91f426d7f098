/** The incremental knowledge index of one project: chunks, full-text rows and embeddings derived from documents.

    A digest stands for the normalized text it is computed from, and the identifier of a source or of a chunk for the
    fields it is computed from. */
module KnowledgeIndex {
  import opened Common
  import opened Text
  import opened Chunking
  import opened Sections
  import opened Normalization

  const SOURCE_KINDS: set<string> :=
    {"skill", "documentation", "adr", "code", "research", "memory", "project_dna"}

  datatype SourceId = SourceId(kind: string, path: string)

  datatype ChunkId = ChunkId(source: SourceId, position: nat)

  /** A document identifier: computed from the source, or given by the caller. */
  datatype DocumentId = Derived(source: SourceId) | Given(name: string)

  datatype Document = Document(source: SourceId, digest: string)

  datatype Chunk = Chunk(document: DocumentId, content: string)

  datatype FtsRow = FtsRow(id: ChunkId, document: DocumentId, content: string)

  /** A stored vector, with the chunk content whose digest went into the embedding's own digest. */
  datatype Embedding = Embedding(content: string, vector: int)

  datatype Tables = Tables(
    sources: map<SourceId, string>,
    documents: map<DocumentId, Document>,
    chunks: map<ChunkId, Chunk>,
    fts: seq<FtsRow>,
    embeddings: map<ChunkId, Embedding>)

  // ---------------------------------------------------------------------------------------------
  // Chunk contents
  // ---------------------------------------------------------------------------------------------

  function NormalizeAll(chunks: seq<string>): (r: seq<string>)
    ensures |r| == |chunks|
  {
    if chunks == [] then [] else NormalizeAll(chunks[..|chunks| - 1]) + [Normalize(chunks[|chunks| - 1])]
  }

  function KindOf(kind: string): Kind { if kind == "code" then Code else Markdown }

  /** The contents of the chunks of a document. */
  function ChunkTexts(kind: string, content: string): seq<string> {
    NormalizeAll(Slices(content, DocumentSpans(content, KindOf(kind))))
  }

  method ChunkText(kind: string, content: string) returns (texts: seq<string>)
    ensures texts == ChunkTexts(kind, content)
  {
    hide Normalize, Slices, DocumentSpans;
    var raw := ChunkDocument(content, KindOf(kind));
    texts := [];
    assert raw[..0] == [];
    for pos := 0 to |raw|
      invariant texts == NormalizeAll(raw[..pos])
    {
      assert raw[..pos + 1][..pos] == raw[..pos];
      texts := texts + [Normalize(raw[pos])];
    }
    assert raw[..|raw|] == raw;
  }

  // ---------------------------------------------------------------------------------------------
  // Index operations on tables
  // ---------------------------------------------------------------------------------------------

  function RowsWithoutSource(rows: seq<FtsRow>, s: SourceId): (r: seq<FtsRow>)
  {
    if rows == [] then []
    else
      var rest, last := RowsWithoutSource(rows[..|rows| - 1], s), rows[|rows| - 1];
      if last.id.source == s then rest else rest + [last]
  }

  /** All chunks of a source deleted, with their full-text rows and embeddings. */
  function WithoutSource(t: Tables, s: SourceId, ftsAvailable: bool): Tables {
    t.(fts := if ftsAvailable then RowsWithoutSource(t.fts, s) else t.fts,
       embeddings := map id | id in t.embeddings && !(id in t.chunks && id.source == s) :: t.embeddings[id],
       chunks := map id | id in t.chunks && id.source != s :: t.chunks[id])
  }

  function WithChunk(t: Tables, id: ChunkId, d: DocumentId, content: string, ftsAvailable: bool): Tables {
    t.(chunks := t.chunks[id := Chunk(d, content)],
       fts := if ftsAvailable then t.fts + [FtsRow(id, d, content)] else t.fts)
  }

  /** The first `n` chunks inserted at their positions. */
  function WithChunks(t: Tables, s: SourceId, d: DocumentId, texts: seq<string>, n: nat, ftsAvailable: bool): Tables
    requires n <= |texts|
  {
    if n == 0 then t
    else
      WithChunk(WithChunks(t, s, d, texts, n - 1, ftsAvailable), ChunkId(s, n - 1), d, texts[n - 1], ftsAvailable)
  }

  function WithSourceRow(t: Tables, s: SourceId): Tables {
    if s in t.sources then t else t.(sources := t.sources[s := ""])
  }

  /** Indexing the same digest again is skipped. */
  predicate Unchanged(t: Tables, d: DocumentId, content: string) {
    d in t.documents && t.documents[d].digest == Normalize(content)
  }

  function Cleared(t: Tables, s: SourceId, d: DocumentId, ftsAvailable: bool): Tables {
    if d in t.documents then
      var u := WithoutSource(t, s, ftsAvailable);
      u.(documents := u.documents - {d})
    else t
  }

  function Registered(t: Tables, s: SourceId, d: DocumentId, digest: string): Tables {
    t.(documents := t.documents[d := Document(s, digest)], sources := t.sources[s := digest])
  }

  function Indexed(t: Tables, s: SourceId, d: DocumentId, content: string, ftsAvailable: bool): Tables {
    var u := WithSourceRow(t, s);
    if Unchanged(t, d, content) then u
    else
      var texts := ChunkTexts(s.kind, content);
      Registered(WithChunks(Cleared(u, s, d, ftsAvailable), s, d, texts, |texts|, ftsAvailable),
                 s, d, Normalize(content))
  }

  // ---------------------------------------------------------------------------------------------
  // What the tables should hold
  // ---------------------------------------------------------------------------------------------

  /** The content of each source at its last indexing that was not skipped. */
  type Live = map<SourceId, string>

  /** The content that chunk `id` of the contents last indexed has, if there is such a chunk. */
  function Wanted(live: Live, id: ChunkId): Option<string> {
    if id.source in live then TextAt(ChunkTexts(id.source.kind, live[id.source]), id.position) else None
  }

  function TextAt(texts: seq<string>, position: nat): Option<string> {
    if position < |texts| then Some(texts[position]) else None
  }

  function Stored(chunks: map<ChunkId, Chunk>, id: ChunkId): Option<string> {
    if id in chunks then Some(chunks[id].content) else None
  }

  /** The chunk table holds exactly the chunks of the contents last indexed. */
  ghost predicate ChunksSynced(chunks: map<ChunkId, Chunk>, live: Live) {
    forall id :: Stored(chunks, id) == Wanted(live, id)
  }

  function RowOf(id: ChunkId, c: Chunk): FtsRow { FtsRow(id, c.document, c.content) }

  ghost predicate Distinct(rows: seq<FtsRow>) {
    forall i, j :: 0 <= i < j < |rows| ==> rows[i].id != rows[j].id
  }

  /** There is exactly one full-text row for each chunk, and no other row. */
  ghost predicate FtsSynced(rows: seq<FtsRow>, chunks: map<ChunkId, Chunk>) {
    && Distinct(rows)
    && (forall r :: r in rows ==> r.id in chunks && r == RowOf(r.id, chunks[r.id]))
    && forall id :: id in chunks ==> RowOf(id, chunks[id]) in rows
  }

  /** Every embedding belongs to a chunk and was computed from its present content. */
  ghost predicate EmbeddingsSynced(embeddings: map<ChunkId, Embedding>, chunks: map<ChunkId, Chunk>) {
    forall id :: id in embeddings ==> id in chunks && embeddings[id].content == chunks[id].content
  }

  ghost predicate Synced(t: Tables, live: Live, ftsAvailable: bool) {
    && ChunksSynced(t.chunks, live)
    && (if ftsAvailable then FtsSynced(t.fts, t.chunks) else t.fts == [])
    && EmbeddingsSynced(t.embeddings, t.chunks)
  }

  function LiveAfter(t: Tables, live: Live, s: SourceId, d: DocumentId, content: string): Live {
    if Unchanged(t, d, content) then live else live[s := content]
  }

  // ---------------------------------------------------------------------------------------------
  // Inserting chunks
  // ---------------------------------------------------------------------------------------------

  function NewRows(s: SourceId, d: DocumentId, texts: seq<string>, n: nat): (rows: seq<FtsRow>)
    requires n <= |texts|
    ensures |rows| == n && forall i :: 0 <= i < n ==> rows[i] == FtsRow(ChunkId(s, i), d, texts[i])
  {
    if n == 0 then [] else NewRows(s, d, texts, n - 1) + [FtsRow(ChunkId(s, n - 1), d, texts[n - 1])]
  }

  lemma {:induction false} WithChunksChunks(t: Tables, s: SourceId, d: DocumentId, texts: seq<string>, n: nat,
                                            fts: bool, id: ChunkId)
    requires n <= |texts|
    ensures var r := WithChunks(t, s, d, texts, n, fts).chunks;
      if id.source == s && id.position < n then id in r && r[id] == Chunk(d, texts[id.position])
      else (id in r <==> id in t.chunks) && (id in r ==> r[id] == t.chunks[id])
  {
    if n > 0 {
      WithChunksChunks(t, s, d, texts, n - 1, fts, id);
    }
  }

  /** `after` is `before` with the chunks of `s` put at their positions. */
  ghost predicate Overwrites(before: map<ChunkId, Chunk>, after: map<ChunkId, Chunk>, s: SourceId, d: DocumentId,
                             texts: seq<string>) {
    forall id: ChunkId ::
      if id.source == s && id.position < |texts| then id in after && after[id] == Chunk(d, texts[id.position])
      else (id in after <==> id in before) && (id in after ==> after[id] == before[id])
  }

  lemma WithChunksOverwrites(t: Tables, s: SourceId, d: DocumentId, texts: seq<string>, fts: bool)
    ensures Overwrites(t.chunks, WithChunks(t, s, d, texts, |texts|, fts).chunks, s, d, texts)
  {
    hide WithChunks;
    forall id { WithChunksChunks(t, s, d, texts, |texts|, fts, id); }
  }

  lemma {:induction false} WithChunksRows(t: Tables, s: SourceId, d: DocumentId, texts: seq<string>, n: nat, fts: bool)
    requires n <= |texts|
    ensures var r := WithChunks(t, s, d, texts, n, fts);
      && r.sources == t.sources && r.documents == t.documents && r.embeddings == t.embeddings
      && r.fts == (if fts then t.fts + NewRows(s, d, texts, n) else t.fts)
  {
    if n > 0 {
      WithChunksRows(t, s, d, texts, n - 1, fts);
    }
  }

  lemma {:induction false} RowsWithoutSourceIs(rows: seq<FtsRow>, s: SourceId)
    ensures forall r :: r in RowsWithoutSource(rows, s) <==> r in rows && r.id.source != s
    ensures Distinct(rows) ==> Distinct(RowsWithoutSource(rows, s))
  {
    if rows != [] {
      var init, last := rows[..|rows| - 1], rows[|rows| - 1];
      assert rows == init + [last];
      RowsWithoutSourceIs(init, s);
      assert Distinct(rows) ==> Distinct(init);
      if Distinct(rows) && last.id.source != s {
        var rest := RowsWithoutSource(init, s);
        forall i | 0 <= i < |rest| ensures rest[i].id != last.id {
          assert rest[i] in init;
          var k :| 0 <= k < |init| && init[k] == rest[i];
          assert rows[k].id != rows[|rows| - 1].id;
        }
      }
    }
  }

  /** No chunk of the source is stored. */
  ghost predicate Absent(t: Tables, s: SourceId) { forall id :: id in t.chunks ==> id.source != s }

  lemma ClearingKeepsChunks(t: Tables, live: Live, s: SourceId, fts: bool)
    requires ChunksSynced(t.chunks, live)
    ensures ChunksSynced(WithoutSource(t, s, fts).chunks, live - {s})
  {
    hide ChunkTexts;
    var r := WithoutSource(t, s, fts).chunks;
    forall id ensures Stored(r, id) == Wanted(live - {s}, id) {
      assert Stored(t.chunks, id) == Wanted(live, id);
    }
  }

  lemma ClearingKeepsRows(t: Tables, s: SourceId)
    requires FtsSynced(t.fts, t.chunks)
    ensures FtsSynced(RowsWithoutSource(t.fts, s), WithoutSource(t, s, true).chunks)
  {
    RowsWithoutSourceIs(t.fts, s);
    hide Distinct, RowsWithoutSource;
  }

  lemma ClearingKeepsSynced(t: Tables, live: Live, s: SourceId, fts: bool)
    requires Synced(t, live, fts)
    ensures Absent(WithoutSource(t, s, fts), s) && Synced(WithoutSource(t, s, fts), live - {s}, fts)
  {
    hide ChunksSynced, FtsSynced, RowsWithoutSource;
    ClearingKeepsChunks(t, live, s, fts);
    if fts {
      ClearingKeepsRows(t, s);
    }
  }

  // ---------------------------------------------------------------------------------------------
  // When indexing keeps the tables in step
  // ---------------------------------------------------------------------------------------------

  /** Source `s` may be inserted over what is stored for it: with full-text rows nothing may be stored for it at all;
      without them, no more chunks than there are now, and none with an embedding whose content changes. */
  predicate Fits(t: Tables, s: SourceId, texts: seq<string>, fts: bool) {
    forall id :: id in t.chunks && id.source == s ==>
      !fts && id.position < |texts| && (id in t.embeddings ==> t.chunks[id].content == texts[id.position])
  }

  /** The document is known, so that its source is cleared first, or the new chunks fit over the stored ones. */
  predicate MayIndex(t: Tables, s: SourceId, d: DocumentId, content: string, fts: bool) {
    d in t.documents || Fits(t, s, ChunkTexts(s.kind, content), fts)
  }

  predicate Shorter(chunks: map<ChunkId, Chunk>, s: SourceId, n: nat) {
    forall id :: id in chunks && id.source == s ==> id.position < n
  }

  lemma InsertChunksIff(t: Tables, live: Live, s: SourceId, d: DocumentId, content: string, fts: bool)
    requires ChunksSynced(t.chunks, live)
    ensures var texts := ChunkTexts(s.kind, content);
      ChunksSynced(WithChunks(t, s, d, texts, |texts|, fts).chunks, live[s := content])
      <==> Shorter(t.chunks, s, |texts|)
  {
    var texts := ChunkTexts(s.kind, content);
    var r, live' := WithChunks(t, s, d, texts, |texts|, fts).chunks, live[s := content];
    hide ChunkTexts, WithChunks;
    forall id
      ensures Stored(r, id) == Wanted(live', id) <==>
        (id in t.chunks && id.source == s ==> id.position < |texts|)
    {
      WithChunksChunks(t, s, d, texts, |texts|, fts, id);
      assert Stored(t.chunks, id) == Wanted(live, id);
    }
  }

  lemma NewRowsDistinct(rows: seq<FtsRow>, s: SourceId, d: DocumentId, texts: seq<string>)
    requires Distinct(rows) && forall r :: r in rows ==> r.id.source != s
    ensures Distinct(rows + NewRows(s, d, texts, |texts|))
  {
    var added := NewRows(s, d, texts, |texts|);
    hide NewRows;
    assert forall i :: 0 <= i < |rows| ==> rows[i] in rows;
  }

  lemma NewRowsMatch(before: map<ChunkId, Chunk>, after: map<ChunkId, Chunk>, s: SourceId, d: DocumentId,
                     texts: seq<string>, r: FtsRow)
    requires Overwrites(before, after, s, d, texts) && r in NewRows(s, d, texts, |texts|)
    ensures r.id in after && r == RowOf(r.id, after[r.id])
  {
  }

  lemma OldRowsMatch(before: map<ChunkId, Chunk>, after: map<ChunkId, Chunk>, s: SourceId, d: DocumentId,
                     texts: seq<string>, r: FtsRow)
    requires Overwrites(before, after, s, d, texts) && r.id in before && r.id.source != s
    ensures r.id in after && after[r.id] == before[r.id]
  {
  }

  lemma EveryChunkHasRow(rows: seq<FtsRow>, before: map<ChunkId, Chunk>, after: map<ChunkId, Chunk>, s: SourceId,
                         d: DocumentId, texts: seq<string>, id: ChunkId)
    requires Overwrites(before, after, s, d, texts) && id in after
    requires forall x :: x in before ==> RowOf(x, before[x]) in rows
    ensures RowOf(id, after[id]) in rows + NewRows(s, d, texts, |texts|)
  {
    var added := NewRows(s, d, texts, |texts|);
    hide NewRows;
    if id.source == s && id.position < |texts| {
      assert added[id.position] == RowOf(id, after[id]);
    } else {
      assert RowOf(id, before[id]) in rows;
    }
  }

  lemma InsertRowsKeep(t: Tables, s: SourceId, d: DocumentId, texts: seq<string>)
    requires FtsSynced(t.fts, t.chunks) && Absent(t, s)
    ensures FtsSynced(t.fts + NewRows(s, d, texts, |texts|), WithChunks(t, s, d, texts, |texts|, true).chunks)
  {
    var added := NewRows(s, d, texts, |texts|);
    var after := WithChunks(t, s, d, texts, |texts|, true).chunks;
    hide WithChunks, NewRows, Distinct, Overwrites, RowOf;
    WithChunksOverwrites(t, s, d, texts, true);
    NewRowsDistinct(t.fts, s, d, texts);
    forall r | r in t.fts + added ensures r.id in after && r == RowOf(r.id, after[r.id]) {
      if r in t.fts {
        OldRowsMatch(t.chunks, after, s, d, texts, r);
      } else {
        NewRowsMatch(t.chunks, after, s, d, texts, r);
      }
    }
    forall id | id in after ensures RowOf(id, after[id]) in t.fts + added {
      EveryChunkHasRow(t.fts, t.chunks, after, s, d, texts, id);
    }
  }

  /** A source stored before gets a second full-text row, or keeps a chunk too many. */
  lemma InsertRowsBreak(t: Tables, s: SourceId, d: DocumentId, texts: seq<string>, id: ChunkId)
    requires FtsSynced(t.fts, t.chunks) && id in t.chunks && id.source == s && id.position < |texts|
    ensures !Distinct(t.fts + NewRows(s, d, texts, |texts|))
  {
    var rows, added := t.fts, NewRows(s, d, texts, |texts|);
    assert RowOf(id, t.chunks[id]) in rows;
    var i :| 0 <= i < |rows| && rows[i] == RowOf(id, t.chunks[id]);
    var j := |rows| + id.position;
    assert (rows + added)[j] == added[id.position] && (rows + added)[i] == rows[i];
  }

  lemma InsertEmbeddings(t: Tables, s: SourceId, d: DocumentId, texts: seq<string>, fts: bool)
    requires EmbeddingsSynced(t.embeddings, t.chunks) && Shorter(t.chunks, s, |texts|)
    ensures EmbeddingsSynced(t.embeddings, WithChunks(t, s, d, texts, |texts|, fts).chunks) <==>
      forall id :: id in t.chunks && id.source == s && id in t.embeddings ==> t.chunks[id].content == texts[id.position]
  {
    var r := WithChunks(t, s, d, texts, |texts|, fts).chunks;
    hide WithChunks;
    WithChunksOverwrites(t, s, d, texts, fts);
  }

  lemma InsertSyncedIff(t: Tables, live: Live, s: SourceId, d: DocumentId, content: string, fts: bool)
    requires Synced(t, live, fts)
    ensures var texts := ChunkTexts(s.kind, content);
      Synced(WithChunks(t, s, d, texts, |texts|, fts), live[s := content], fts) <==> Fits(t, s, texts, fts)
  {
    var texts := ChunkTexts(s.kind, content);
    hide ChunkTexts, ChunksSynced, FtsSynced, EmbeddingsSynced, WithChunks, NewRows;
    InsertChunksIff(t, live, s, d, content, fts);
    WithChunksRows(t, s, d, texts, |texts|, fts);
    if Shorter(t.chunks, s, |texts|) {
      InsertEmbeddings(t, s, d, texts, fts);
      if fts && Absent(t, s) {
        InsertRowsKeep(t, s, d, texts);
      } else if fts {
        var id :| id in t.chunks && id.source == s;
        InsertRowsBreak(t, s, d, texts, id);
        NotDistinctNotSynced(t.fts + NewRows(s, d, texts, |texts|), WithChunks(t, s, d, texts, |texts|, fts).chunks);
      }
    }
  }

  lemma NotDistinctNotSynced(rows: seq<FtsRow>, chunks: map<ChunkId, Chunk>)
    ensures !Distinct(rows) ==> !FtsSynced(rows, chunks)
  {
  }

  lemma IndexingKnown(t: Tables, live: Live, s: SourceId, d: DocumentId, content: string, fts: bool)
    requires Synced(t, live, fts) && d in t.documents && !Unchanged(t, d, content)
    ensures Synced(Indexed(t, s, d, content, fts), live[s := content], fts)
  {
    hide ChunkTexts, ChunksSynced, FtsSynced, EmbeddingsSynced, WithChunks, Normalize, WithoutSource;
    var u := WithSourceRow(t, s);
    ClearingKeepsSynced(u, live, s, fts);
    AbsentFits(Cleared(u, s, d, fts), s, ChunkTexts(s.kind, content), fts);
    InsertSyncedIff(Cleared(u, s, d, fts), live - {s}, s, d, content, fts);
    assert (live - {s})[s := content] == live[s := content];
  }

  lemma AbsentFits(t: Tables, s: SourceId, texts: seq<string>, fts: bool)
    requires Absent(t, s)
    ensures Fits(t, s, texts, fts)
  {
  }

  /** Indexing keeps the chunk table, the full-text rows and the embeddings in step with the content last indexed
      exactly if the document is known or the new chunks fit. */
  lemma IndexingKeepsSyncedIff(t: Tables, live: Live, s: SourceId, d: DocumentId, content: string, fts: bool)
    requires Synced(t, live, fts)
    ensures Synced(Indexed(t, s, d, content, fts), LiveAfter(t, live, s, d, content), fts)
            <==> MayIndex(t, s, d, content, fts)
  {
    hide ChunkTexts, ChunksSynced, FtsSynced, EmbeddingsSynced, WithChunks, Normalize, WithoutSource;
    if d !in t.documents {
      InsertSyncedIff(WithSourceRow(t, s), live, s, d, content, fts);
    } else if !Unchanged(t, d, content) {
      hide Indexed;
      IndexingKnown(t, live, s, d, content, fts);
    }
  }

  // ---------------------------------------------------------------------------------------------
  // Documents known by their derived identifier
  // ---------------------------------------------------------------------------------------------

  /** Each source indexed has one document, with the digest of the content last indexed. */
  ghost predicate DocumentsSynced(t: Tables, live: Live) {
    && (forall s :: Derived(s) in t.documents <==> s in live)
    && (forall s :: s in live ==>
          t.documents[Derived(s)] == Document(s, Normalize(live[s]))
          && s in t.sources && t.sources[s] == Normalize(live[s]))
  }

  /** With derived document identifiers indexing always keeps everything in step, and the chunks stored afterwards
      are those of a content with the digest of the one just given. */
  lemma DerivedKeepsSynced(t: Tables, live: Live, s: SourceId, content: string, fts: bool)
    requires Synced(t, live, fts) && DocumentsSynced(t, live)
    ensures var t', live' := Indexed(t, s, Derived(s), content, fts), LiveAfter(t, live, s, Derived(s), content);
      && Synced(t', live', fts) && DocumentsSynced(t', live')
      && s in live' && Normalize(live'[s]) == Normalize(content)
      && forall x :: x != s ==> (x in live' <==> x in live) && (x in live ==> live'[x] == live[x])
  {
    hide *;
    IndexingKeepsSyncedIff(t, live, s, Derived(s), content, fts);
    UnknownFits(t, live, s, content, fts);
    DerivedKeepsDocuments(t, live, s, content, fts);
  }

  lemma DerivedKeepsDocuments(t: Tables, live: Live, s: SourceId, content: string, fts: bool)
    requires DocumentsSynced(t, live)
    ensures var t', live' := Indexed(t, s, Derived(s), content, fts), LiveAfter(t, live, s, Derived(s), content);
      && DocumentsSynced(t', live')
      && s in live' && Normalize(live'[s]) == Normalize(content)
      && forall x :: x != s ==> (x in live' <==> x in live) && (x in live ==> live'[x] == live[x])
  {
    IndexedRecords(t, s, Derived(s), content, fts);
    hide Indexed, Normalize;
  }

  lemma UnknownFits(t: Tables, live: Live, s: SourceId, content: string, fts: bool)
    requires Synced(t, live, fts) && DocumentsSynced(t, live)
    ensures MayIndex(t, s, Derived(s), content, fts)
  {
    hide ChunkTexts, FtsSynced, EmbeddingsSynced, Normalize;
    if Derived(s) !in t.documents {
      forall id | id in t.chunks ensures id.source != s {
        assert Stored(t.chunks, id) == Wanted(live, id);
      }
    }
  }

  lemma IndexedRecords(t: Tables, s: SourceId, d: DocumentId, content: string, fts: bool)
    ensures var r := Indexed(t, s, d, content, fts);
      if Unchanged(t, d, content) then r == WithSourceRow(t, s)
      else && r.sources == t.sources[s := Normalize(content)]
           && r.documents == t.documents[d := Document(s, Normalize(content))]
  {
    hide ChunkTexts, Normalize, WithChunks, WithoutSource;
    if !Unchanged(t, d, content) {
      var u := WithSourceRow(t, s);
      var texts := ChunkTexts(s.kind, content);
      WithChunksRows(Cleared(u, s, d, fts), s, d, texts, |texts|, fts);
      ClearedRecords(u, s, d, fts);
    }
  }

  lemma ClearedRecords(t: Tables, s: SourceId, d: DocumentId, fts: bool)
    ensures Cleared(t, s, d, fts).sources == t.sources
    ensures Cleared(t, s, d, fts).documents == t.documents - {d}
  {
  }

  /** Indexing a content with the same digest again changes nothing. */
  lemma ReindexingChangesNothing(t: Tables, s: SourceId, d: DocumentId, content: string, again: string, fts: bool)
    requires Normalize(again) == Normalize(content)
    ensures var r := Indexed(t, s, d, content, fts); Indexed(r, s, d, again, fts) == r && Unchanged(r, d, again)
  {
    IndexedRecords(t, s, d, content, fts);
    hide ChunkTexts, Normalize, Cleared, WithChunks;
  }
}

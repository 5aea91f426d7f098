/** What runs of the store leave behind: which chunks an embedding run covers, position by position, and whose document
    each chunk names. */
module KnowledgeResults {
  import opened Common
  import opened Normalization
  import opened KnowledgeIndex
  import opened KnowledgeStore

  // ---------------------------------------------------------------------------------------------
  // What is to be done
  // ---------------------------------------------------------------------------------------------

  lemma TodoSnoc(t: Tables, listed: seq<ChunkId>, id: ChunkId)
    ensures Unembedded(t, listed + [id])
         == Unembedded(t, listed) + if id in t.chunks && id !in t.embeddings then [id] else []
  {
    assert (listed + [id])[..|listed|] == listed;
  }

  /** The chunks to embed are the listed ones that are stored and have no embedding yet, in the order listed. */
  lemma {:induction false} TodoKeepsOrder(t: Tables, a: seq<ChunkId>, b: seq<ChunkId>)
    ensures Unembedded(t, a + b) == Unembedded(t, a) + Unembedded(t, b)
  {
    hide Unembedded;
    if b == [] {
      assert a + b == a;
      NothingLeft(t, []);
    } else {
      var init, id := b[..|b| - 1], b[|b| - 1];
      assert b == init + [id] && a + b == a + init + [id];
      TodoKeepsOrder(t, a, init);
      TodoSnoc(t, init, id);
      TodoSnoc(t, a + init, id);
    }
  }

  lemma TodoOfOne(t: Tables, id: ChunkId)
    ensures Unembedded(t, [id]) == if id in t.chunks && id !in t.embeddings then [id] else []
  {
    NothingLeft(t, []);
    TodoSnoc(t, [], id);
    hide Unembedded;
    assert [] + [id] == [id];
  }

  // ---------------------------------------------------------------------------------------------
  // What is done
  // ---------------------------------------------------------------------------------------------

  /** The provider returns a vector for the chunk at position `x`: chunks are sent in batches of 32, it raised neither
      on the batch of this one nor on one before it, and its reply to this batch is long enough. */
  ghost predicate Answered(replies: nat -> Reply, x: nat) {
    && (forall k: nat :: k <= x / 32 ==> replies(k).Vectors?)
    && x % 32 < replies(x / 32).count
  }

  ghost function Answers(replies: nat -> Reply, n: nat): nat {
    if n == 0 then 0 else Answers(replies, n - 1) + (if Answered(replies, n - 1) then 1 else 0)
  }

  /** One of the positions from `from` on, up to `end`, is that of `id` and answered. */
  ghost predicate AnsweredIn(replies: nat -> Reply, ids: seq<ChunkId>, from: nat, end: nat, id: ChunkId) {
    exists x :: from <= x < end <= |ids| && ids[x] == id && Answered(replies, x)
  }

  lemma {:induction false} SavedIff(p: Progress, chunks: map<ChunkId, Chunk>, ids: seq<ChunkId>, from: nat, n: nat,
                                    embed: string -> int, id: ChunkId)
    requires AllStored(chunks, ids) && from + n <= |ids|
    ensures id in Saved(p, chunks, ids, from, n, embed).embeddings
      <==> id in p.embeddings || exists x :: from <= x < from + n && ids[x] == id
    ensures Saved(p, chunks, ids, from, n, embed).embedded == p.embedded + n
  {
    if n > 0 {
      SavedIff(p, chunks, ids, from, n - 1, embed, id);
      hide RowFor;
      assert ids[from + n - 1] == ids[from + n - 1];
    }
  }

  /** All batches before batch `k` were answered, so that its positions are answered up to the length of its reply. */
  lemma AnsweredInBatch(replies: nat -> Reply, k: nat, x: nat)
    requires forall j: nat :: j < k ==> replies(j).Vectors?
    requires 32 * k <= x < 32 * k + 32
    ensures Answered(replies, x) <==> replies(k).Vectors? && x - 32 * k < replies(k).count
  {
    assert x / 32 == k && x % 32 == x - 32 * k;
  }

  lemma RaisedEnds(replies: nat -> Reply, k: nat, x: nat)
    requires replies(k).Raised? && 32 * k <= x
    ensures !Answered(replies, x)
  {
    assert k <= x / 32;
  }

  lemma {:induction false} NoMoreAnswers(replies: nat -> Reply, k: nat, from: nat, end: nat)
    requires replies(k).Raised? && 32 * k <= from <= end
    ensures Answers(replies, end) == Answers(replies, from)
    decreases end
  {
    hide Answered;
    if from < end {
      NoMoreAnswers(replies, k, from, end - 1);
      RaisedEnds(replies, k, end - 1);
    }
  }

  lemma {:induction false} BatchAnswers(replies: nat -> Reply, k: nat, n: nat)
    requires forall j: nat :: j <= k ==> replies(j).Vectors?
    requires n <= 32
    ensures Answers(replies, 32 * k + n) == Answers(replies, 32 * k) + Min(replies(k).count, n)
  {
    hide Answered;
    if n > 0 {
      BatchAnswers(replies, k, n - 1);
      AnsweredInBatch(replies, k, 32 * k + n - 1);
    }
  }

  lemma BatchIff(replies: nat -> Reply, ids: seq<ChunkId>, k: nat, n: nat, id: ChunkId)
    requires forall j: nat :: j <= k ==> replies(j).Vectors?
    requires n <= 32 && 32 * k + n <= |ids|
    ensures AnsweredIn(replies, ids, 32 * k, 32 * k + n, id)
      <==> exists x :: 32 * k <= x < 32 * k + Min(replies(k).count, n) && ids[x] == id
  {
    hide Answered;
    forall x | 32 * k <= x < 32 * k + n ensures Answered(replies, x) <==> x - 32 * k < replies(k).count {
      AnsweredInBatch(replies, k, x);
    }
  }

  lemma AnsweredSplits(replies: nat -> Reply, ids: seq<ChunkId>, from: nat, mid: nat, id: ChunkId)
    requires from <= mid <= |ids|
    ensures AnsweredIn(replies, ids, from, |ids|, id)
      <==> AnsweredIn(replies, ids, from, mid, id) || AnsweredIn(replies, ids, mid, |ids|, id)
  {
    hide Answered;
  }

  lemma {:induction false} BatchesIff(p: Progress, chunks: map<ChunkId, Chunk>, ids: seq<ChunkId>, k: nat,
                                      embed: string -> int, replies: nat -> Reply, id: ChunkId)
    requires AllStored(chunks, ids) && forall j: nat :: j < k ==> replies(j).Vectors?
    ensures var i := Min(32 * k, |ids|); var r := Batches(p, chunks, ids, i, BatchSize(|ids|), k, embed, replies);
      && (id in r.embeddings <==> id in p.embeddings || AnsweredIn(replies, ids, i, |ids|, id))
      && r.embedded + Answers(replies, i) == p.embedded + Answers(replies, |ids|)
    decreases |ids| - Min(32 * k, |ids|)
  {
    hide Saved, Answered, AnsweredIn, Answers;
    var i := Min(32 * k, |ids|);
    if i == |ids| {
      NoneAnswered(replies, ids, id);
    } else if replies(k).Raised? {
      NoMoreAnswers(replies, k, i, |ids|);
      NoneBehind(replies, ids, k, id);
    } else {
      var n := Min(BatchSize(|ids|), |ids| - i);
      var m := Min(replies(k).count, n);
      assert i + n == Min(32 * (k + 1), |ids|);
      var q := Saved(p, chunks, ids, i, m, embed);
      SavedIff(p, chunks, ids, i, m, embed, id);
      BatchesIff(q, chunks, ids, k + 1, embed, replies, id);
      BatchAnswers(replies, k, n);
      BatchIff(replies, ids, k, n, id);
      AnsweredSplits(replies, ids, i, i + n, id);
    }
  }

  lemma NoneAnswered(replies: nat -> Reply, ids: seq<ChunkId>, id: ChunkId)
    ensures !AnsweredIn(replies, ids, |ids|, |ids|, id)
  {
  }

  lemma NoneBehind(replies: nat -> Reply, ids: seq<ChunkId>, k: nat, id: ChunkId)
    requires replies(k).Raised?
    ensures !AnsweredIn(replies, ids, 32 * k, |ids|, id)
  {
    hide Answered;
    forall x: nat | 32 * k <= x ensures !Answered(replies, x) {
      RaisedEnds(replies, k, x);
    }
  }

  /** After an embedding run a chunk has an embedding exactly if it had one before, or stands at an answered position
      of the chunks to embed; the run reports how many positions were answered. */
  lemma EmbeddedIff(t: Tables, listed: seq<ChunkId>, embed: string -> int, replies: nat -> Reply, id: ChunkId)
    ensures var todo := Unembedded(t, listed);
      && (id in Embedded(t, listed, embed, replies).embeddings
          <==> id in t.embeddings || exists x :: 0 <= x < |todo| && todo[x] == id && Answered(replies, x))
      && EmbeddingRun(t, listed, embed, replies).embedded == Answers(replies, |todo|)
  {
    hide Answered, Batches, Unembedded, BatchSize;
    var todo := Unembedded(t, listed);
    TodoStored(t, listed);
    BatchesIff(Progress(t.embeddings, 0), t.chunks, todo, 0, embed, replies, id);
  }

  /** What was embedded before keeps its row, and a new row is the vector of what is stored. */
  lemma EmbeddedRows(t: Tables, listed: seq<ChunkId>, embed: string -> int, replies: nat -> Reply, id: ChunkId)
    requires id in Embedded(t, listed, embed, replies).embeddings
    ensures var row := Embedded(t, listed, embed, replies).embeddings[id];
      if id in t.embeddings then row == t.embeddings[id]
      else id in t.chunks && row == Embedding(t.chunks[id].content, embed(t.chunks[id].content))
  {
    EmbeddedAdds(t, listed, embed, replies);
    hide Embedded;
  }

  // ---------------------------------------------------------------------------------------------
  // Whose document a chunk names
  // ---------------------------------------------------------------------------------------------

  ghost predicate NamesDocuments(chunks: map<ChunkId, Chunk>) {
    forall id :: id in chunks ==> chunks[id].document == Derived(id.source)
  }

  lemma IndexedNames(t: Tables, s: SourceId, content: string, fts: bool)
    requires NamesDocuments(t.chunks)
    ensures NamesDocuments(Indexed(t, s, Derived(s), content, fts).chunks)
  {
    hide ChunkTexts, Normalize, WithChunks;
    var texts := ChunkTexts(s.kind, content);
    var u := Cleared(WithSourceRow(t, s), s, Derived(s), fts);
    WithChunksOverwrites(u, s, Derived(s), texts, fts);
    assert NamesDocuments(u.chunks);
  }

  /** In every run each chunk names the document of its own source, and that document is stored. */
  lemma {:induction false} ChunksNameTheirDocument(steps: seq<Step>, embed: string -> int, fts: bool)
    ensures var t := After(steps, embed, fts).tables;
      NamesDocuments(t.chunks) && forall id :: id in t.chunks ==> t.chunks[id].document in t.documents
  {
    hide *;
    ChunksName(steps, embed, fts);
    RunsStayInStep(steps, embed, fts);
    NamedIsStored(After(steps, embed, fts), embed, fts);
  }

  lemma NamedIsStored(st: Store, embed: string -> int, fts: bool)
    requires InStep(st, embed, fts) && NamesDocuments(st.tables.chunks)
    ensures forall id :: id in st.tables.chunks ==> st.tables.chunks[id].document in st.tables.documents
  {
    hide FtsSynced, EmbeddingsSynced, VectorsComputed, ChunkTexts, Normalize;
    forall id | id in st.tables.chunks ensures st.tables.chunks[id].document in st.tables.documents {
      assert Stored(st.tables.chunks, id) == Wanted(st.live, id);
    }
  }

  lemma {:induction false} ChunksName(steps: seq<Step>, embed: string -> int, fts: bool)
    ensures NamesDocuments(After(steps, embed, fts).tables.chunks)
  {
    hide Indexed, EmbeddingRun, NamesDocuments;
    if steps == [] {
      NoChunksName();
    } else {
      var before, step := After(steps[..|steps| - 1], embed, fts), steps[|steps| - 1];
      ChunksName(steps[..|steps| - 1], embed, fts);
      if step.Index? {
        IndexedNames(before.tables, step.source, step.content, fts);
      }
    }
  }

  lemma NoChunksName()
    ensures NamesDocuments(map[])
  {
  }

  // ---------------------------------------------------------------------------------------------
  // What indexing makes of the contents
  // ---------------------------------------------------------------------------------------------

  /** The source has been indexed with a content of the same digest. */
  predicate SameDigest(live: Live, s: SourceId, content: string) {
    s in live && Normalize(live[s]) == Normalize(content)
  }

  lemma LiveAfterIs(t: Tables, live: Live, s: SourceId, content: string)
    requires DocumentsSynced(t, live)
    ensures LiveAfter(t, live, s, Derived(s), content)
         == if SameDigest(live, s, content) then live else live[s := content]
  {
    hide Normalize;
  }

  lemma SourceKindsAre(kind: string)
    ensures kind in SOURCE_KINDS
      <==> kind in {"skill", "documentation", "adr", "code", "research", "memory", "project_dna"}
  {
  }

  lemma NextIndex(st: Store, s: SourceId, content: string, embed: string -> int, fts: bool)
    requires DocumentsSynced(st.tables, st.live)
    ensures var r := Next(st, Index(s, content), embed, fts);
      if s.kind in SOURCE_KINDS then
        r.live == if SameDigest(st.live, s, content) then st.live else st.live[s := content]
      else r == st
  {
    hide SOURCE_KINDS, DocumentsSynced, Indexed, LiveAfter, SameDigest;
    LiveAfterIs(st.tables, st.live, s, content);
  }

  lemma AfterSnoc(steps: seq<Step>, step: Step, embed: string -> int, fts: bool)
    ensures After(steps + [step], embed, fts) == Next(After(steps, embed, fts), step, embed, fts)
  {
    hide Next;
    assert (steps + [step])[..|steps|] == steps;
  }

  lemma DocumentsInStep(st: Store, embed: string -> int, fts: bool)
    requires InStep(st, embed, fts)
    ensures DocumentsSynced(st.tables, st.live)
  {
  }

  /** In every run, indexing a source of one of the seven kinds makes its content the one that is live, unless the one
      indexed before has the same digest; a source of any other kind changes nothing. */
  lemma {:induction false} IndexingMakesLive(steps: seq<Step>, s: SourceId, content: string, embed: string -> int,
                                             fts: bool)
    ensures var before, after := After(steps, embed, fts), After(steps + [Index(s, content)], embed, fts);
      if s.kind in {"skill", "documentation", "adr", "code", "research", "memory", "project_dna"} then
        after.live == if SameDigest(before.live, s, content) then before.live else before.live[s := content]
      else after == before
  {
    hide *;
    AfterSnoc(steps, Index(s, content), embed, fts);
    RunsStayInStep(steps, embed, fts);
    DocumentsInStep(After(steps, embed, fts), embed, fts);
    NextIndex(After(steps, embed, fts), s, content, embed, fts);
    SourceKindsAre(s.kind);
  }

  /** Embedding changes no content. */
  lemma EmbeddingKeepsLive(st: Store, listed: seq<ChunkId>, replies: nat -> Reply, embed: string -> int, fts: bool)
    ensures var r := Next(st, Embed(listed, replies), embed, fts);
      r.live == st.live && r.tables == st.tables.(embeddings := r.tables.embeddings)
  {
  }

  lemma ClearedElsewhere(t: Tables, s: SourceId, d: DocumentId, fts: bool, id: ChunkId)
    requires id.source != s
    ensures var r := Cleared(t, s, d, fts);
      && (id in r.chunks <==> id in t.chunks) && (id in t.chunks ==> r.chunks[id] == t.chunks[id])
      && (id in r.embeddings <==> id in t.embeddings) && (id in t.embeddings ==> r.embeddings[id] == t.embeddings[id])
  {
  }

  /** Under whatever identifier a source is indexed, no chunk and no embedding of another source changes; its own row
      holds the new digest, or if the indexing is skipped what it held, or nothing if there was no row. */
  lemma IndexingTouchesOneSource(t: Tables, s: SourceId, d: DocumentId, content: string, fts: bool, id: ChunkId)
    requires id.source != s
    ensures var r := Indexed(t, s, d, content, fts);
      && (id in r.chunks <==> id in t.chunks) && (id in t.chunks ==> r.chunks[id] == t.chunks[id])
      && (id in r.embeddings <==> id in t.embeddings) && (id in t.embeddings ==> r.embeddings[id] == t.embeddings[id])
    ensures Indexed(t, s, d, content, fts).sources
         == t.sources[s := if !Unchanged(t, d, content) then Normalize(content)
                           else if s in t.sources then t.sources[s] else ""]
  {
    hide ChunkTexts, Normalize, WithChunks, Cleared;
    IndexedRecords(t, s, d, content, fts);
    var texts, u := ChunkTexts(s.kind, content), Cleared(WithSourceRow(t, s), s, d, fts);
    ClearedElsewhere(WithSourceRow(t, s), s, d, fts, id);
    WithChunksChunks(u, s, d, texts, |texts|, fts, id);
    WithChunksRows(u, s, d, texts, |texts|, fts);
  }
}

/** The store that indexes documents and fills the embedding table, and everything its runs keep. */
module KnowledgeStore {
  import opened Common
  import opened KnowledgeIndex
  import opened Normalization
  import opened NormalizedText
  import opened Chunking
  import opened Sections
  import opened Text

  const EMBED_BATCH := 32

  /** What the provider does with a batch: it raises, or returns the vectors of the first `count` texts (all of
      them, if `count` is more than that). */
  datatype Reply = Raised | Vectors(count: nat)

  datatype Provider = NoProvider | Unavailable | Ready(embed: string -> int, replies: nat -> Reply)

  datatype Progress = Progress(embeddings: map<ChunkId, Embedding>, embedded: nat)

  // ---------------------------------------------------------------------------------------------
  // Embedding what is stored
  // ---------------------------------------------------------------------------------------------

  /** `find_unembedded_chunk_ids`, limited to the chunks that are stored. */
  function Unembedded(t: Tables, listed: seq<ChunkId>): (todo: seq<ChunkId>)
    ensures forall id :: id in todo <==> id in listed && id !in t.embeddings && id in t.chunks
  {
    if listed == [] then []
    else
      var rest, last := Unembedded(t, listed[..|listed| - 1]), listed[|listed| - 1];
      if last !in t.embeddings && last in t.chunks then rest + [last] else rest
  }

  ghost predicate AllStored(chunks: map<ChunkId, Chunk>, ids: seq<ChunkId>) {
    forall i :: 0 <= i < |ids| ==> ids[i] in chunks
  }

  function RowFor(chunks: map<ChunkId, Chunk>, id: ChunkId, embed: string -> int): Embedding
    requires id in chunks
  {
    Embedding(chunks[id].content, embed(chunks[id].content))
  }

  /** The rows for `ids[from..from + n]` saved, one after the other. */
  function Saved(p: Progress, chunks: map<ChunkId, Chunk>, ids: seq<ChunkId>, from: nat, n: nat,
                 embed: string -> int): Progress
    requires AllStored(chunks, ids) && from + n <= |ids|
  {
    if n == 0 then p
    else
      var q, id := Saved(p, chunks, ids, from, n - 1, embed), ids[from + n - 1];
      Progress(q.embeddings[id := RowFor(chunks, id, embed)], q.embedded + 1)
  }

  /** The batches from position `i` on; a batch the provider fails on ends the run, a short reply does not. */
  function Batches(p: Progress, chunks: map<ChunkId, Chunk>, ids: seq<ChunkId>, i: nat, size: nat, k: nat,
                   embed: string -> int, replies: nat -> Reply): Progress
    requires AllStored(chunks, ids) && i <= |ids| && size > 0
    decreases |ids| - i
  {
    if i == |ids| || replies(k).Raised? then p
    else
      var n := Min(size, |ids| - i);
      Batches(Saved(p, chunks, ids, i, Min(replies(k).count, n), embed), chunks, ids, i + n, size, k + 1,
              embed, replies)
  }

  function BatchSize(n: nat): (size: nat)
    ensures 1 <= size <= EMBED_BATCH
  {
    Min(EMBED_BATCH, if n < 1 then 1 else n)
  }

  function EmbeddingRun(t: Tables, listed: seq<ChunkId>, embed: string -> int, replies: nat -> Reply): Progress {
    var todo := Unembedded(t, listed);
    Batches(Progress(t.embeddings, 0), t.chunks, todo, 0, BatchSize(|todo|), 0, embed, replies)
  }

  function Embedded(t: Tables, listed: seq<ChunkId>, embed: string -> int, replies: nat -> Reply): Tables {
    t.(embeddings := EmbeddingRun(t, listed, embed, replies).embeddings)
  }

  /** `after` is `before` with rows for some of `ids`, each computed from the chunk stored under its identifier. */
  ghost predicate Adds(before: map<ChunkId, Embedding>, after: map<ChunkId, Embedding>,
                       chunks: map<ChunkId, Chunk>, ids: seq<ChunkId>, embed: string -> int) {
    && (forall id :: id in before ==> id in after)
    && forall id :: id in after ==>
         || (id in before && after[id] == before[id])
         || (id in ids && id in chunks && after[id] == RowFor(chunks, id, embed))
  }

  lemma {:induction false} SavedAdds(p: Progress, chunks: map<ChunkId, Chunk>, ids: seq<ChunkId>, from: nat, n: nat,
                                     embed: string -> int)
    requires AllStored(chunks, ids) && from + n <= |ids|
    ensures Adds(p.embeddings, Saved(p, chunks, ids, from, n, embed).embeddings, chunks, ids, embed)
    ensures forall i :: from <= i < from + n ==> ids[i] in Saved(p, chunks, ids, from, n, embed).embeddings
  {
    if n > 0 {
      SavedAdds(p, chunks, ids, from, n - 1, embed);
    }
  }

  lemma AddsTransitive(a: map<ChunkId, Embedding>, b: map<ChunkId, Embedding>, c: map<ChunkId, Embedding>,
                       chunks: map<ChunkId, Chunk>, ids: seq<ChunkId>, embed: string -> int)
    requires Adds(a, b, chunks, ids, embed) && Adds(b, c, chunks, ids, embed)
    ensures Adds(a, c, chunks, ids, embed)
  {
  }

  lemma {:induction false} BatchesAdd(p: Progress, chunks: map<ChunkId, Chunk>, ids: seq<ChunkId>, i: nat, size: nat,
                                      k: nat, embed: string -> int, replies: nat -> Reply)
    requires AllStored(chunks, ids) && i <= |ids| && size > 0
    ensures Adds(p.embeddings, Batches(p, chunks, ids, i, size, k, embed, replies).embeddings, chunks, ids, embed)
    decreases |ids| - i
  {
    if i < |ids| && !replies(k).Raised? {
      var n := Min(size, |ids| - i);
      var m := Min(replies(k).count, n);
      var q := Saved(p, chunks, ids, i, m, embed);
      SavedAdds(p, chunks, ids, i, m, embed);
      BatchesAdd(q, chunks, ids, i + n, size, k + 1, embed, replies);
      var r := Batches(q, chunks, ids, i + n, size, k + 1, embed, replies);
      hide Saved, Adds;
      AddsTransitive(p.embeddings, q.embeddings, r.embeddings, chunks, ids, embed);
    }
  }

  /** Every reply is complete. */
  ghost predicate Complete(replies: nat -> Reply) {
    forall k :: replies(k).Vectors? && replies(k).count >= EMBED_BATCH
  }

  lemma {:induction false} BatchesCover(p: Progress, chunks: map<ChunkId, Chunk>, ids: seq<ChunkId>, i: nat, size: nat,
                                        k: nat, embed: string -> int, replies: nat -> Reply)
    requires AllStored(chunks, ids) && i <= |ids| && 0 < size <= EMBED_BATCH && Complete(replies)
    ensures forall j :: i <= j < |ids| ==> ids[j] in Batches(p, chunks, ids, i, size, k, embed, replies).embeddings
    decreases |ids| - i
  {
    if i < |ids| {
      var n := Min(size, |ids| - i);
      assert replies(k).Vectors?;
      var q := Saved(p, chunks, ids, i, n, embed);
      SavedAdds(p, chunks, ids, i, n, embed);
      hide Saved, RowFor;
      BatchesCover(q, chunks, ids, i + n, size, k + 1, embed, replies);
      BatchesAdd(q, chunks, ids, i + n, size, k + 1, embed, replies);
    }
  }

  lemma TodoStored(t: Tables, listed: seq<ChunkId>)
    ensures AllStored(t.chunks, Unembedded(t, listed))
  {
    var todo := Unembedded(t, listed);
    assert forall i :: 0 <= i < |todo| ==> todo[i] in todo;
  }

  /** Embedding keeps the tables in step: rows are added only for stored chunks, each computed from what is stored. */
  lemma EmbeddingKeepsSynced(t: Tables, live: Live, listed: seq<ChunkId>, embed: string -> int,
                             replies: nat -> Reply, fts: bool)
    requires Synced(t, live, fts)
    ensures Synced(Embedded(t, listed, embed, replies), live, fts)
  {
    EmbeddedAdds(t, listed, embed, replies);
    hide ChunksSynced, FtsSynced, EmbeddingRun;
  }

  lemma EmbeddedAdds(t: Tables, listed: seq<ChunkId>, embed: string -> int, replies: nat -> Reply)
    ensures Adds(t.embeddings, Embedded(t, listed, embed, replies).embeddings, t.chunks, Unembedded(t, listed), embed)
  {
    hide Adds;
    var todo := Unembedded(t, listed);
    TodoStored(t, listed);
    BatchesAdd(Progress(t.embeddings, 0), t.chunks, todo, 0, BatchSize(|todo|), 0, embed, replies);
  }

  lemma {:induction false} NothingLeft(t: Tables, listed: seq<ChunkId>)
    requires forall id :: id in listed ==> id in t.embeddings
    ensures Unembedded(t, listed) == []
  {
    if listed != [] {
      NothingLeft(t, listed[..|listed| - 1]);
      assert listed[|listed| - 1] in listed;
    }
  }

  /** If the provider answers every batch completely, all listed chunks have an embedding afterwards, and the next
      run finds nothing to do. */
  lemma EmbeddingCompletes(t: Tables, listed: seq<ChunkId>, embed: string -> int, replies: nat -> Reply)
    requires Complete(replies) && forall id :: id in listed ==> id in t.chunks
    ensures var r := Embedded(t, listed, embed, replies);
      (forall id :: id in listed ==> id in r.embeddings) && Unembedded(r, listed) == []
  {
    var todo := Unembedded(t, listed);
    var r := Embedded(t, listed, embed, replies);
    TodoStored(t, listed);
    EmbeddedAdds(t, listed, embed, replies);
    BatchesCover(Progress(t.embeddings, 0), t.chunks, todo, 0, BatchSize(|todo|), 0, embed, replies);
    forall id | id in listed ensures id in r.embeddings {
      if id in todo {
        var j :| 0 <= j < |todo| && todo[j] == id;
      }
    }
    NothingLeft(r, listed);
  }

  // ---------------------------------------------------------------------------------------------
  // Runs
  // ---------------------------------------------------------------------------------------------

  datatype Step =
    | Index(source: SourceId, content: string)
    | Embed(listed: seq<ChunkId>, replies: nat -> Reply)

  datatype Store = Store(tables: Tables, live: Live)

  function Next(st: Store, step: Step, embed: string -> int, fts: bool): Store {
    var Store(t, live) := st;
    match step
    case Index(s, content) =>
      if s.kind !in SOURCE_KINDS then st
      else Store(Indexed(t, s, Derived(s), content, fts), LiveAfter(t, live, s, Derived(s), content))
    case Embed(listed, replies) => Store(Embedded(t, listed, embed, replies), live)
  }

  /** The store after some documents were indexed and embedded, with identifiers derived from their sources. */
  function After(steps: seq<Step>, embed: string -> int, fts: bool): Store {
    if steps == [] then Store(Tables(map[], map[], map[], [], map[]), map[])
    else Next(After(steps[..|steps| - 1], embed, fts), steps[|steps| - 1], embed, fts)
  }

  /** Every stored vector is what the provider computes from the chunk content stored now. */
  ghost predicate VectorsSynced(t: Tables, embed: string -> int) {
    forall id :: id in t.embeddings ==> id in t.chunks && t.embeddings[id] == RowFor(t.chunks, id, embed)
  }

  ghost predicate VectorsComputed(embeddings: map<ChunkId, Embedding>, embed: string -> int) {
    forall id :: id in embeddings ==> embeddings[id].vector == embed(embeddings[id].content)
  }

  lemma IndexedKeepsVectors(t: Tables, s: SourceId, d: DocumentId, content: string, embed: string -> int, fts: bool)
    requires VectorsComputed(t.embeddings, embed)
    ensures VectorsComputed(Indexed(t, s, d, content, fts).embeddings, embed)
  {
    hide ChunkTexts, WithChunks, Normalize;
    var texts := ChunkTexts(s.kind, content);
    WithChunksRows(Cleared(WithSourceRow(t, s), s, d, fts), s, d, texts, |texts|, fts);
  }

  /** Chunks, full-text rows, embeddings and documents are in step with the contents last indexed. */
  ghost predicate InStep(st: Store, embed: string -> int, fts: bool) {
    && Synced(st.tables, st.live, fts) && DocumentsSynced(st.tables, st.live)
    && VectorsComputed(st.tables.embeddings, embed)
  }

  lemma NextKeepsInStep(st: Store, step: Step, embed: string -> int, fts: bool)
    requires InStep(st, embed, fts)
    ensures InStep(Next(st, step, embed, fts), embed, fts)
  {
    hide Synced, DocumentsSynced, VectorsComputed, Indexed, LiveAfter, Embedded;
    var Store(t, live) := st;
    match step
    case Index(s, content) =>
      DerivedKeepsSynced(t, live, s, content, fts);
      IndexedKeepsVectors(t, s, Derived(s), content, embed, fts);
    case Embed(listed, replies) =>
      EmbeddingKeepsSynced(t, live, listed, embed, replies, fts);
      EmbeddedKeepsDocuments(t, live, listed, embed, replies);
  }

  lemma {:induction false} RunsStayInStep(steps: seq<Step>, embed: string -> int, fts: bool)
    ensures InStep(After(steps, embed, fts), embed, fts)
  {
    if steps != [] {
      RunsStayInStep(steps[..|steps| - 1], embed, fts);
      hide InStep, Next;
      NextKeepsInStep(After(steps[..|steps| - 1], embed, fts), steps[|steps| - 1], embed, fts);
    }
  }

  lemma EmbeddedKeepsDocuments(t: Tables, live: Live, listed: seq<ChunkId>, embed: string -> int,
                               replies: nat -> Reply)
    requires DocumentsSynced(t, live) && VectorsComputed(t.embeddings, embed)
    ensures DocumentsSynced(Embedded(t, listed, embed, replies), live)
    ensures VectorsComputed(Embedded(t, listed, embed, replies).embeddings, embed)
  {
    EmbeddedAdds(t, listed, embed, replies);
    hide EmbeddingRun, Normalize;
  }

  /** Over every run, every embedding is the vector of the content now stored under its identifier. */
  lemma {:induction false} EmbeddingsAreCurrent(steps: seq<Step>, embed: string -> int, fts: bool)
    ensures VectorsSynced(After(steps, embed, fts).tables, embed)
  {
    RunsStayInStep(steps, embed, fts);
    hide After, ChunksSynced, FtsSynced, DocumentsSynced;
  }

  // ---------------------------------------------------------------------------------------------
  // Two limits
  // ---------------------------------------------------------------------------------------------

  const PLAIN := "a\n#"
  const PADDED := "a\n#  "

  lemma NoMark(t: string, i: nat)
    requires i <= |t| && (HashEnd(t, i) == i || HashEnd(t, i) == |t|)
    ensures MatchEnd(t, Markdown, i) == -1
  {
    hide HashEnd, LineEnd, DropLineFeeds;
  }

  lemma PlainMarks()
    ensures FindAll(PLAIN, Markdown, 0) == []
  {
    var t := PLAIN;
    assert t[0] == 'a' && t[1] == '\n' && t[2] == '#';
    hide MatchEnd;
    forall i | 0 <= i <= 3 ensures MatchEnd(t, Markdown, i) == -1 {
      NoMark(t, i);
    }
    assert FindAll(t, Markdown, 3) == [];
    assert FindAll(t, Markdown, 2) == [];
    assert FindAll(t, Markdown, 1) == [];
  }

  /** A heading mark without a title is no heading. */
  lemma PlainIsOneChunk()
    ensures |ChunkTexts("documentation", PLAIN)| == 1
  {
    PlainMarks();
    assert PLAIN[0] == 'a' && !IsSpace('a');
    StripEmptyIffBlank(PLAIN);
    hide FindAll, Strip, IsSpace, Normalize, Slices, Trim;
  }

  lemma PaddedMarks()
    ensures FindAll(PADDED, Markdown, 0) == [Span(2, 5)]
  {
    var t := PADDED;
    assert t[0] == 'a' && t[1] == '\n' && t[2] == '#' && t[3] == ' ' && t[4] == ' ';
    NoMark(t, 0);
    NoMark(t, 5);
    assert MatchEnd(t, Markdown, 1) == -1;
    assert MatchEnd(t, Markdown, 2) == 5 by {
      assert HashEnd(t, 2) == 3;
      assert FirstNonSpace(t, 5, 5) == 5 && FirstNonSpace(t, 4, 5) == 5 && FirstNonSpace(t, 3, 5) == 5;
      hide FirstNonSpace, HashEnd;
    }
    hide MatchEnd;
    assert FindAll(t, Markdown, 5) == [];
    assert FindAll(t, Markdown, 2) == [Span(2, 5)];
    assert FindAll(t, Markdown, 1) == [Span(2, 5)];
  }

  lemma ShortSection(t: string, m: Span, end: nat)
    requires m.start < m.end <= end <= |t| <= MAX_CHUNK_CHARS
    ensures |SectionSpans(t, m, end)| == 1
  {
    hide Trim, SizeSpansOf;
  }

  lemma ChunkCount(t: string)
    ensures |ChunkTexts("documentation", t)| == |DocumentSpans(t, Markdown)|
  {
    hide DocumentSpans, Normalize, Slices;
  }

  /** A heading mark followed by white space is a heading, so the text before it becomes a chunk of its own. */
  lemma PaddedIsTwoChunks()
    ensures |ChunkTexts("documentation", PADDED)| == 2
  {
    PaddedMarks();
    PaddedPreamble();
    ChunkCount(PADDED);
    FindAllMarks(PADDED, Markdown, 0);
    hide FindAll, PreambleSpans, SectionSpans, ChunkTexts, Marks;
    var marks := [Span(2, 5)];
    ShortSection(PADDED, marks[0], 5);
    assert |SectionsUpTo(PADDED, Markdown, marks, 0)| == 1;
    assert |SectionsUpTo(PADDED, Markdown, marks, 1)| == 2;
  }

  lemma PaddedPreamble()
    ensures |PreambleSpans(PADDED, Markdown, 2)| == 1
  {
    var t := PADDED;
    assert t[0] == 'a' && t[1] == '\n' && !IsSpace('a') && IsSpace('\n');
    var p := Trim(t, Span(0, 2));
    assert p == Span(0, 1) by {
      assert LastNonSpace(t, 0, 1) == 1 && LastNonSpace(t, 0, 2) == 1;
    }
    var part := Slice(t, p);
    assert part == "a";
    StripEmptyIffBlank(part);
    hide Strip, Trim, IsSpace;
  }
  lemma {:induction false} TwoLines(first: string, second: string)
    requires Plain(first) && Plain(second) && second != [] && RightTrim(first) == first
    ensures TrimLines(SplitLines(first + "\n" + second)) == [first, RightTrim(second)]
  {
    hide SplitLines, RightTrim, Plain;
    var lines := [first, second];
    assert lines[1..] == [second];
    assert JoinLines(lines) == first + "\n" + second;
    SplitLinesOfJoin(lines);
    hide JoinLines;
    assert TrimLines([second]) == [RightTrim(second)];
  }

  /** The digest ignores white space at the end of the last line. */
  lemma TrailingSpaceIsIgnored(first: string, x: string, y: string)
    requires Plain(first) && Plain(x) && Plain(y) && x != [] && y != []
    requires RightTrim(first) == first && RightTrim(x) == RightTrim(y)
    ensures Normalize(first + "\n" + x) == Normalize(first + "\n" + y)
  {
    hide RightTrim, Plain, Normalize, SplitLines, JoinLines, TrimLines;
    NormalizeIs(first + "\n" + x);
    NormalizeIs(first + "\n" + y);
    TwoLines(first, x);
    TwoLines(first, y);
  }

  lemma TrimmedHash()
    ensures RightTrim("#") == "#" && RightTrim("#  ") == "#" && RightTrim("a") == "a"
  {
    assert !IsSpace('#') && !IsSpace('a') && IsSpace(' ');
    hide RightTrim, IsSpace;
    var s := "#  ";
    assert s[0] == '#' && s[1] == ' ' && s[2] == ' ';
    assert |RightTrim(s)| == 1;
  }

  lemma SameDigest()
    ensures Normalize(PLAIN) == Normalize(PADDED)
  {
    TrimmedHash();
    assert Plain("a") && Plain("#") && Plain("#  ");
    assert PLAIN == "a" + "\n" + "#" && PADDED == "a" + "\n" + "#  ";
    hide RightTrim, Plain, Normalize;
    TrailingSpaceIsIgnored("a", "#", "#  ");
  }

  /** The chunks stored are those of the content last indexed without being skipped, and not always those of the
      content given last: white space that the digest ignores can decide where a text is cut. */
  lemma SkipLeavesOldChunks(t: Tables, live: Live, s: SourceId, fts: bool)
    requires Synced(t, live, fts) && DocumentsSynced(t, live)
    requires s.kind == "documentation" && s in live && live[s] == PLAIN
    ensures Indexed(t, s, Derived(s), PADDED, fts) == t
    ensures !ChunksSynced(t.chunks, live[s := PADDED])
  {
    hide ChunkTexts, Normalize, ChunksSynced, FtsSynced, EmbeddingsSynced;
    SameDigest();
    PlainIsOneChunk();
    PaddedIsTwoChunks();
    ChunksAreCurrentIff(t, live, s, PADDED, fts);
  }

  lemma SameTextsIff(a: seq<string>, b: seq<string>)
    ensures (forall p: nat :: TextAt(a, p) == TextAt(b, p)) <==> a == b
  {
    if forall p: nat :: TextAt(a, p) == TextAt(b, p) {
      assert TextAt(a, |b|).None? && TextAt(b, |a|).None?;
      forall p: nat | p < |a| ensures a[p] == b[p] {
        assert TextAt(a, p) == TextAt(b, p);
      }
    }
  }

  /** Giving a source another content, without touching the chunks. */
  lemma SameChunksIff(chunks: map<ChunkId, Chunk>, live: Live, s: SourceId, content: string)
    requires ChunksSynced(chunks, live) && s in live
    ensures ChunksSynced(chunks, live[s := content])
            <==> ChunkTexts(s.kind, content) == ChunkTexts(s.kind, live[s])
  {
    hide ChunkTexts, TextAt;
    var now, before, live' := ChunkTexts(s.kind, content), ChunkTexts(s.kind, live[s]), live[s := content];
    SameTextsIff(now, before);
    if ChunksSynced(chunks, live') {
      forall p: nat ensures TextAt(now, p) == TextAt(before, p) {
        var id := ChunkId(s, p);
        assert Wanted(live, id) == Stored(chunks, id) == Wanted(live', id);
      }
    }
    if now == before {
      forall id ensures Stored(chunks, id) == Wanted(live', id) {
        assert Stored(chunks, id) == Wanted(live, id);
      }
    }
  }

  /** After a document is indexed the stored chunks of its source are those of the content just given, exactly if the
      content has another digest than the one indexed before, or is cut into the same chunks. */
  lemma ChunksAreCurrentIff(t: Tables, live: Live, s: SourceId, content: string, fts: bool)
    requires Synced(t, live, fts) && DocumentsSynced(t, live)
    ensures ChunksSynced(Indexed(t, s, Derived(s), content, fts).chunks, live[s := content])
      <==> (s in live && Normalize(live[s]) == Normalize(content)
            ==> ChunkTexts(s.kind, content) == ChunkTexts(s.kind, live[s]))
  {
    hide ChunkTexts, Normalize, ChunksSynced, FtsSynced, EmbeddingsSynced, Indexed;
    DerivedKeepsSynced(t, live, s, content, fts);
    IndexedRecords(t, s, Derived(s), content, fts);
    if Unchanged(t, Derived(s), content) {
      SameChunksIff(t.chunks, live, s, content);
    }
  }

  /** A text of at most 4096 characters in which nothing is found to cut at. */
  predicate Uncut(kind: string, content: string) {
    |content| <= MAX_CHUNK_CHARS && FindAll(content, KindOf(kind), 0) == []
  }

  lemma UncutSlices(kind: string, content: string)
    requires Uncut(kind, content)
    ensures Slices(content, DocumentSpans(content, KindOf(kind)))
         == if Strip(content) == [] then [] else [Strip(content)]
  {
    hide FindAll, Strip, Trim, IsSpace, Slices;
    WholeText(content);
    NoSlices(content);
  }

  lemma NormalizeAllOfOne(chunk: string)
    ensures NormalizeAll([chunk]) == [Normalize(chunk)] && NormalizeAll([]) == []
  {
    hide Normalize;
    assert [chunk][..0] == [];
  }

  /** Such a text is one chunk, and what is stored of it depends only on its normalized form. */
  lemma UncutIsOneChunk(kind: string, content: string)
    requires Uncut(kind, content)
    ensures var text := LeftTrim(Normalize(content));
      ChunkTexts(kind, content) == if text == [] then [] else [text]
  {
    hide Uncut, DocumentSpans, Slices, Normalize, NormalizeAll, Strip, LeftTrim, IsSpace;
    UncutSlices(kind, content);
    NormalizeOfStrip(content);
    NormalizeOfNothing();
    NormalizeAllOfOne(Strip(content));
    if Strip(content) != [] {
      NormalizeKeepsFirst(Strip(content));
    }
  }

  /** For two such texts the digest decides the chunks, so that no indexing of one after the other leaves old ones. */
  lemma UncutDigestDecides(kind: string, a: string, b: string)
    requires Uncut(kind, a) && Uncut(kind, b) && Normalize(a) == Normalize(b)
    ensures ChunkTexts(kind, a) == ChunkTexts(kind, b)
  {
    hide *;
    UncutIsOneChunk(kind, a);
    UncutIsOneChunk(kind, b);
  }

  // ---------------------------------------------------------------------------------------------
  // What the index keeps of a document
  // ---------------------------------------------------------------------------------------------

  lemma {:induction false} NormalizeAllAt(chunks: seq<string>, i: nat)
    requires i < |chunks|
    ensures NormalizeAll(chunks)[i] == Normalize(chunks[i])
  {
    hide Normalize;
    if i < |chunks| - 1 {
      NormalizeAllAt(chunks[..|chunks| - 1], i);
    }
  }

  /** The chunk text at a position is the normalized slice of a span, with all its characters other than white space. */
  lemma ChunkTextKeeps(kind: string, content: string, i: nat)
    requires i < |DocumentSpans(content, KindOf(kind))|
    ensures i < |ChunkTexts(kind, content)|
    ensures Ink(ChunkTexts(kind, content)[i]) == Ink(Slice(content, DocumentSpans(content, KindOf(kind))[i]))
  {
    hide DocumentSpans, Normalize, Ink, Slices, NormalizeAll;
    var spans := DocumentSpans(content, KindOf(kind));
    assert spans[i] in spans;
    NormalizeAllAt(Slices(content, spans), i);
    NormalizeKeepsInk(Slice(content, spans[i]));
  }

  lemma SpanOf(content: string, kind: Kind, p: nat) returns (i: nat)
    requires p < |content| && !IsSpace(content[p])
    ensures i < |DocumentSpans(content, kind)|
    ensures Within(DocumentSpans(content, kind)[i], content) && Contains(DocumentSpans(content, kind)[i], p)
  {
    DocumentKeeps(content, kind);
    hide DocumentSpans, IsSpace;
    var spans := DocumentSpans(content, kind);
    var w :| w in spans && Contains(w, p);
    i :| 0 <= i < |spans| && spans[i] == w;
  }

  lemma StoredInStep(st: Store, embed: string -> int, fts: bool, id: ChunkId)
    requires InStep(st, embed, fts) && id.source in st.live
    requires id.position < |ChunkTexts(id.source.kind, st.live[id.source])|
    ensures id in st.tables.chunks
    ensures st.tables.chunks[id].content == ChunkTexts(id.source.kind, st.live[id.source])[id.position]
  {
    hide ChunkTexts, FtsSynced, EmbeddingsSynced, DocumentsSynced, VectorsComputed;
    assert Stored(st.tables.chunks, id) == Wanted(st.live, id);
  }

  lemma InkInSlice(content: string, w: Span, p: nat)
    requires Within(w, content) && Contains(w, p) && !IsSpace(content[p])
    ensures |Ink(content[w.start..p])| < |Ink(Slice(content, w))|
    ensures Ink(Slice(content, w))[|Ink(content[w.start..p])|] == content[p]
  {
    hide IsSpace, Ink;
    var part, q := Slice(content, w), p - w.start;
    assert part[q] == content[p] && part[..q] == content[w.start..p];
    InkAt(part, q);
  }

  /** In every run, every character of a document other than white space is in a stored chunk of its source, at its
      place among the characters that the chunk keeps of its part of the text. */
  lemma EveryCharacterIsStored(steps: seq<Step>, embed: string -> int, fts: bool, s: SourceId, p: nat)
    returns (id: ChunkId, w: Span)
    requires s in After(steps, embed, fts).live
    requires p < |After(steps, embed, fts).live[s]| && !IsSpace(After(steps, embed, fts).live[s][p])
    ensures var st := After(steps, embed, fts); var content := st.live[s];
      && id in st.tables.chunks && id.source == s
      && Within(w, content) && Contains(w, p)
      && Ink(st.tables.chunks[id].content) == Ink(Slice(content, w))
      && |Ink(content[w.start..p])| < |Ink(st.tables.chunks[id].content)|
      && Ink(st.tables.chunks[id].content)[|Ink(content[w.start..p])|] == content[p]
  {
    hide *;
    var st := After(steps, embed, fts);
    var content := st.live[s];
    RunsStayInStep(steps, embed, fts);
    var i := SpanOf(content, KindOf(s.kind), p);
    w := DocumentSpans(content, KindOf(s.kind))[i];
    id := ChunkId(s, i);
    ChunkTextKeeps(s.kind, content, i);
    StoredInStep(st, embed, fts, id);
    InkInSlice(content, w, p);
  }

  /** The same source indexed under two given identifiers has its chunks in the full-text table twice. */
  lemma GivenIdentifiersDuplicate(s: SourceId)
    requires s.kind == "documentation"
    ensures var none := Tables(map[], map[], map[], [], map[]);
      var first := Indexed(none, s, Given("a"), PLAIN, true);
      Synced(first, map[s := PLAIN], true)
      && !Synced(Indexed(first, s, Given("b"), PLAIN, true), map[s := PLAIN], true)
  {
    var none := Tables(map[], map[], map[], [], map[]);
    var first := Indexed(none, s, Given("a"), PLAIN, true);
    PlainIsOneChunk();
    hide ChunkTexts, Normalize, WithChunks;
    IndexingKeepsSyncedIff(none, map[], s, Given("a"), PLAIN, true);
    var id := ChunkId(s, 0);
    assert Stored(first.chunks, id) == Wanted(map[s := PLAIN], id);
    IndexedRecords(none, s, Given("a"), PLAIN, true);
    IndexingKeepsSyncedIff(first, map[s := PLAIN], s, Given("b"), PLAIN, true);
  }

  // ---------------------------------------------------------------------------------------------
  // The program
  // ---------------------------------------------------------------------------------------------

  datatype Action = Skipped | Reindexed | New

  datatype IndexResult = InvalidType | Done(action: Action, created: nat)

  datatype Status = NoProviderGiven | ProviderUnavailable | NoChunks | UpToDate | Finished

  datatype EmbedResult = EmbedResult(embedded: nat, skipped: nat, status: Status)

  class KnowledgeStore {
    const ftsAvailable: bool
    var sources: map<SourceId, string>
    var documents: map<DocumentId, Document>
    var chunks: map<ChunkId, Chunk>
    var fts: seq<FtsRow>
    var embeddings: map<ChunkId, Embedding>

    constructor (ftsAvailable: bool)
      ensures this.ftsAvailable == ftsAvailable && State() == After([], (_) => 0, ftsAvailable).tables
    {
      this.ftsAvailable := ftsAvailable;
      sources, documents, chunks, fts, embeddings := map[], map[], map[], [], map[];
    }

    function State(): Tables
      reads this
    {
      Tables(sources, documents, chunks, fts, embeddings)
    }

    method EnsureSource(s: SourceId)
      modifies `sources
      ensures State() == WithSourceRow(old(State()), s)
    {
      if s !in sources {
        sources := sources[s := ""];
      }
    }

    method DeleteChunksForSource(s: SourceId)
      modifies `fts, `embeddings, `chunks
      ensures State() == WithoutSource(old(State()), s, ftsAvailable)
    {
      if ftsAvailable {
        fts := RowsWithoutSource(fts, s);
      }
      embeddings := map id | id in embeddings && !(id in chunks && id.source == s) :: embeddings[id];
      chunks := map id | id in chunks && id.source != s :: chunks[id];
    }

    method InsertChunk(id: ChunkId, d: DocumentId, content: string)
      modifies `chunks, `fts
      ensures State() == WithChunk(old(State()), id, d, content, ftsAvailable)
    {
      chunks := chunks[id := Chunk(d, content)];
      if ftsAvailable {
        fts := fts + [FtsRow(id, d, content)];
      }
    }

    method InsertChunks(s: SourceId, d: DocumentId, texts: seq<string>)
      modifies `chunks, `fts
      ensures State() == WithChunks(old(State()), s, d, texts, |texts|, ftsAvailable)
    {
      for pos := 0 to |texts|
        invariant State() == WithChunks(old(State()), s, d, texts, pos, ftsAvailable)
      {
        InsertChunk(ChunkId(s, pos), d, texts[pos]);
      }
    }

    method IndexDocument(kind: string, path: string, given: Option<string>, content: string)
      returns (result: IndexResult)
      modifies this
      ensures var s := SourceId(kind, path);
        var d := if given.Some? then Given(given.value) else Derived(s);
        if kind !in SOURCE_KINDS then result == InvalidType && State() == old(State())
        else
          && State() == Indexed(old(State()), s, d, content, ftsAvailable)
          && result == if Unchanged(old(State()), d, content) then Done(Skipped, 0)
                       else Done(if d in old(documents) then Reindexed else New, |ChunkTexts(kind, content)|)
    {
      hide ChunkTexts, Normalize, WithoutSource, WithChunks;
      if kind !in SOURCE_KINDS {
        return InvalidType;
      }
      var s := SourceId(kind, path);
      var d := if given.Some? then Given(given.value) else Derived(s);
      var digest := Normalize(content);
      EnsureSource(s);
      var action := New;
      if d in documents {
        if documents[d].digest == digest {
          return Done(Skipped, 0);
        }
        DeleteChunksForSource(s);
        documents := documents - {d};
        action := Reindexed;
      }
      var texts := ChunkText(kind, content);
      InsertChunks(s, d, texts);
      documents := documents[d := Document(s, digest)];
      sources := sources[s := digest];
      return Done(action, |texts|);
    }

    method SaveBatch(ids: seq<ChunkId>, from: nat, n: nat, count: nat, embed: string -> int, embedded: nat)
      returns (total: nat)
      requires AllStored(chunks, ids) && from + n <= |ids|
      modifies `embeddings
      ensures Progress(embeddings, total)
           == Saved(Progress(old(embeddings), embedded), chunks, ids, from, Min(count, n), embed)
    {
      total := embedded;
      var j := 0;
      while j < n && j < count
        invariant j <= Min(count, n)
        invariant Progress(embeddings, total) == Saved(Progress(old(embeddings), embedded), chunks, ids, from, j, embed)
      {
        var content := chunks[ids[from + j]].content;
        embeddings := embeddings[ids[from + j] := Embedding(content, embed(content))];
        total := total + 1;
        j := j + 1;
      }
    }

    /** `listed` is what the queries for the chunks of all sources return. */
    method EmbedIndexed(provider: Provider, listed: seq<ChunkId>) returns (r: EmbedResult)
      requires forall id :: id in listed ==> id in chunks
      modifies `embeddings
      ensures provider.Ready? ==>
        && State() == Embedded(old(State()), listed, provider.embed, provider.replies)
        && r.embedded == EmbeddingRun(old(State()), listed, provider.embed, provider.replies).embedded
        && (r.status.NoChunks? <==> listed == [])
        && (r.status.UpToDate? <==> listed != [] && forall id :: id in listed ==> id in old(embeddings))
        && (r.status.UpToDate? || r.status.NoChunks? || r.status.Finished?)
      ensures !provider.Ready? ==>
        && State() == old(State()) && r.embedded == 0
        && r.status == if provider.NoProvider? then NoProviderGiven else ProviderUnavailable
      ensures r.skipped == if r.status.UpToDate? then |listed| else 0
    {
      hide Saved, Unembedded;
      match provider
      case NoProvider => return EmbedResult(0, 0, NoProviderGiven);
      case Unavailable => return EmbedResult(0, 0, ProviderUnavailable);
      case Ready(embed, replies) =>
        var todo := Unembedded(State(), listed);
        TodoStored(State(), listed);
        if listed == [] {
          NothingLeft(State(), listed);
          return EmbedResult(0, 0, NoChunks);
        }
        if todo == [] {
          return EmbedResult(0, |listed|, UpToDate);
        }
        assert todo[0] in todo;
        var size := BatchSize(|todo|);
        var i, k, embedded := 0, 0, 0;
        while i < |todo| && !replies(k).Raised?
          invariant i <= |todo| && unchanged(`chunks)
          invariant Batches(Progress(embeddings, embedded), chunks, todo, i, size, k, embed, replies)
                 == EmbeddingRun(old(State()), listed, embed, replies)
          decreases |todo| - i
        {
          var n := Min(size, |todo| - i);
          embedded := SaveBatch(todo, i, n, replies(k).count, embed, embedded);
          i, k := i + n, k + 1;
        }
        r := EmbedResult(embedded, 0, Finished);
    }
  }
}

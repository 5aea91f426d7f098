/** Where documents are cut, in terms of their characters: code at its top-level symbols, everything else at its
    headings. */
module ChunkStarts {
  import opened Text
  import opened Chunking
  import opened Sections
  import opened Normalization
  import opened KnowledgeIndex
  import opened KnowledgeStore

  // ---------------------------------------------------------------------------------------------
  // Symbols and headings
  // ---------------------------------------------------------------------------------------------

  predicate StartsLine(text: string, i: nat) { i < |text| && (i == 0 || text[i - 1] == '\n') }

  /** `word` stands at `i`. */
  predicate Reads(text: string, i: nat, word: string) { i + |word| <= |text| && text[i..i + |word|] == word }

  /** A line that starts with a top-level symbol. */
  predicate SymbolAt(text: string, i: nat) {
    StartsLine(text, i) && (Reads(text, i, "class ") || Reads(text, i, "def ") || Reads(text, i, "async def "))
  }

  /** How long the keyword is with which the symbol starts. */
  function KeywordLength(text: string, i: nat): nat {
    if Reads(text, i, "class ") then 6 else if Reads(text, i, "def ") then 4 else 10
  }

  /** A line that starts with one to six hashes, white space, and a title. */
  ghost predicate HeadingAt(text: string, i: nat) {
    StartsLine(text, i) && exists a, b, e :: HeadingMatch(text, i, a, b, e)
  }

  lemma SymbolMatches(text: string, i: nat)
    requires i <= |text|
    ensures MatchEnd(text, Code, i) == if SymbolAt(text, i) then i + KeywordLength(text, i) else -1
  {
    SymbolsAreWords(text, i);
  }

  lemma HeadingMatches(text: string, i: nat)
    requires i <= |text|
    ensures MatchEnd(text, Markdown, i) != -1 <==> HeadingAt(text, i)
    ensures MatchEnd(text, Markdown, i) != -1 ==>
      exists a, b :: HeadingMatch(text, i, a, b, MatchEnd(text, Markdown, i))
  {
    HeadingEndIsGreedy(text, i);
    hide HeadingEnd, HeadingMatch, TriedBefore, TitleStart, HashEnd;
    if HeadingEnd(text, i) != -1 {
      assert i < |text|;
    }
  }

  /** Every line that starts with a symbol is a mark in code, and there are no others. */
  lemma SymbolsAreMarks(text: string, i: nat)
    ensures SymbolAt(text, i) <==> exists m :: m in FindAll(text, Code, 0) && m.start == i
    ensures forall m :: m in FindAll(text, Code, 0) && m.start == i ==> m.end == i + KeywordLength(text, i) <= |text|
  {
    hide FindAll, MatchEnd, SymbolAt, KeywordLength;
    forall m | m in FindAll(text, Code, 0) && m.start == i
      ensures SymbolAt(text, i) && m.end == i + KeywordLength(text, i) <= |text|
    {
      FoundMatches(text, Code, 0, m);
      SymbolMatches(text, i);
    }
    if SymbolAt(text, i) {
      SymbolInside(text, i);
      SymbolMatches(text, i);
      var m := FindAllComplete(text, Code, 0, i);
      FoundMatches(text, Code, 0, m);
      SymbolMatches(text, m.start);
      if i > m.start {
        KeywordIsOneLine(text, m.start, i - 1);
        StartsBehindLine(text, i);
        assert false;
      }
    }
  }

  lemma SymbolInside(text: string, i: nat)
    ensures SymbolAt(text, i) ==> i < |text|
  {
  }

  lemma StartsBehindLine(text: string, i: nat)
    requires SymbolAt(text, i) && i > 0
    ensures text[i - 1] == '\n'
  {
  }

  /** No line ends inside a keyword. */
  lemma KeywordIsOneLine(text: string, start: nat, p: nat)
    requires SymbolAt(text, start) && start <= p < start + KeywordLength(text, start)
    ensures p < |text| && text[p] != '\n'
  {
    var word := text[start..start + KeywordLength(text, start)];
    assert word == "class " || word == "def " || word == "async def ";
    assert text[p] == word[p - start];
  }

  lemma {:induction false} FoundMatches(text: string, kind: Kind, from: nat, m: Span)
    requires from <= |text| && m in FindAll(text, kind, from)
    ensures from <= m.start <= |text| && MatchEnd(text, kind, m.start) == m.end
    decreases |text| - from
  {
    hide MatchEnd;
    var e := MatchEnd(text, kind, from);
    if e != -1 {
      if m != Span(from, e) {
        FoundMatches(text, kind, e, m);
      }
    } else if from < |text| {
      FoundMatches(text, kind, from + 1, m);
    }
  }

  // ---------------------------------------------------------------------------------------------
  // Sections become chunks
  // ---------------------------------------------------------------------------------------------

  lemma {:induction false} SectionIsIn(text: string, kind: Kind, marks: seq<Span>, n: nat, i: nat, t: Span)
    requires Marks(text, marks, 0) && i < n <= |marks| && t in SectionSpans(text, marks[i], SectionEnd(text, marks, i))
    ensures t in SectionsUpTo(text, kind, marks, n)
  {
    hide SectionSpans, PreambleSpans, IsSpace;
    if i < n - 1 {
      SectionIsIn(text, kind, marks, n - 1, i, t);
    }
  }

  /** A section of at most 4096 characters is one span; a longer one starts with its mark. */
  lemma SectionStarts(text: string, m: Span, end: nat)
    requires m.start < m.end <= end <= |text| && !IsSpace(text[m.start])
    ensures var section := Trim(text, Span(m.start, end));
      section.start == m.start
      && if section.end - section.start <= 4096 then SectionSpans(text, m, end) == [section]
         else Trim(text, m).start == m.start && Trim(text, m) in SectionSpans(text, m, end)
  {
    hide IsSpace, SizeSpansOf, LastNonSpace;
  }

  /** Mark `i` of the document is `m`, and its section ends at `end`. */
  ghost predicate SectionOf(text: string, kind: Kind, i: nat, m: Span, end: nat) {
    && i < |FindAll(text, kind, 0)| && m == FindAll(text, kind, 0)[i]
    && end == SectionEnd(text, FindAll(text, kind, 0), i)
    && m.start < m.end <= end <= |text| && !IsSpace(text[m.start])
  }

  lemma SectionExists(text: string, kind: Kind, i: nat)
    requires i < |FindAll(text, kind, 0)|
    ensures SectionOf(text, kind, i, FindAll(text, kind, 0)[i], SectionEnd(text, FindAll(text, kind, 0), i))
  {
    FindAllMarks(text, kind, 0);
    hide FindAll, IsSpace;
  }

  /** A mark starts a span of the document: its whole section if that fits, otherwise itself. */
  lemma MarkStartsSpan(text: string, kind: Kind, i: nat, m: Span, end: nat) returns (t: Span)
    requires SectionOf(text, kind, i, m, end)
    ensures t in DocumentSpans(text, kind) && t.start == m.start < t.end <= |text|
    ensures var section := Trim(text, Span(m.start, end));
      if section.end - section.start <= 4096 then t == section else t == Trim(text, m)
  {
    var marks := FindAll(text, kind, 0);
    FindAllMarks(text, kind, 0);
    var section := Trim(text, Span(m.start, end));
    hide FindAll, SectionSpans, PreambleSpans, IsSpace, Trim;
    SectionStarts(text, m, end);
    t := if section.end - section.start <= 4096 then section else Trim(text, m);
    assert t in SectionSpans(text, m, end);
    SectionIsIn(text, kind, marks, |marks|, i, t);
    StartsNonBlank(text, m);
    StartsNonBlank(text, Span(m.start, end));
  }

  // ---------------------------------------------------------------------------------------------
  // What is stored
  // ---------------------------------------------------------------------------------------------

  /** A stored chunk holds the text from `start` to `end`. */
  ghost predicate IsChunk(kind: string, content: string, start: nat, end: nat) {
    start < end <= |content| && Normalize(content[start..end]) in ChunkTexts(kind, content)
  }

  lemma SpanIsStored(kind: string, content: string, t: Span)
    requires t in DocumentSpans(content, KindOf(kind)) && t.start < t.end
    ensures IsChunk(kind, content, t.start, t.end)
  {
    hide DocumentSpans, Normalize, NormalizeAll;
    var spans := DocumentSpans(content, KindOf(kind));
    var i :| 0 <= i < |spans| && spans[i] == t;
    NormalizeAllAt(Slices(content, spans), i);
    hide Slices;
    assert ChunkTexts(kind, content)[i] == Normalize(Slice(content, t));
  }

  /** `q` is where the section of the symbol at `p` ends: at the next symbol, or at the end of the text. */
  predicate NextSymbol(text: string, p: nat, q: nat) {
    && p < q <= |text| && (q == |text| || SymbolAt(text, q))
    && forall i :: p < i < q ==> !SymbolAt(text, i)
  }

  lemma MarkOf(text: string, p: nat) returns (k: nat)
    requires SymbolAt(text, p)
    ensures var marks := FindAll(text, Code, 0);
      k < |marks| && marks[k].start == p && marks[k].end == p + KeywordLength(text, p)
  {
    hide FindAll, SymbolAt, KeywordLength;
    SymbolsAreMarks(text, p);
    var marks := FindAll(text, Code, 0);
    var m :| m in marks && m.start == p;
    k :| 0 <= k < |marks| && marks[k] == m;
  }

  lemma SectionEndsAtSymbol(text: string, p: nat, q: nat, k: nat)
    requires NextSymbol(text, p, q)
    requires k < |FindAll(text, Code, 0)| && FindAll(text, Code, 0)[k].start == p
    ensures SectionEnd(text, FindAll(text, Code, 0), k) == q
  {
    var marks := FindAll(text, Code, 0);
    FindAllMarks(text, Code, 0);
    hide FindAll, SymbolAt, IsSpace;
    if k + 1 < |marks| {
      SymbolsAreMarks(text, marks[k + 1].start);
      assert marks[k + 1] in marks;
    }
    if q < |text| {
      var j := MarkOf(text, q);
      LaterMark(text, marks, k, j);
    }
  }

  lemma {:induction false} LaterMark(text: string, marks: seq<Span>, k: nat, j: nat)
    requires Marks(text, marks, 0) && k < |marks| && j < |marks|
    ensures j > k ==> marks[k].start < marks[j].start && marks[k + 1].start <= marks[j].start
    ensures j < k ==> marks[j].start < marks[k].start
  {
    hide IsSpace;
    if j > k + 1 {
      LaterMark(text, marks, k, j - 1);
    } else if j < k {
      LaterMark(text, marks, j, k);
    }
  }

  lemma TrimmedSlice(text: string, w: Span)
    requires Within(w, text)
    ensures Slice(text, Trim(text, w)) == Strip(text[w.start..w.end])
    ensures |Strip(text[w.start..w.end])| == Trim(text, w).end - Trim(text, w).start
  {
    TrimIsStrip(text, w);
    hide Strip, Trim;
  }

  /** Code is cut at every line that starts with `class `, `def ` or `async def `: what stands from there to the next
      such line, or to the end, is one stored chunk if it has at most 4096 characters; otherwise the keyword is one. */
  lemma CodeIsCutAtSymbols(content: string, p: nat, q: nat)
    requires SymbolAt(content, p) && NextSymbol(content, p, q)
    ensures var section := Strip(content[p..q]); var keyword := Strip(content[p..p + KeywordLength(content, p)]);
      Normalize(if |section| <= 4096 then section else keyword) in ChunkTexts("code", content)
  {
    hide Normalize, ChunkTexts, SymbolAt, NextSymbol, FindAll, DocumentSpans, Trim, Strip, KeywordLength;
    var k := MarkOf(content, p);
    SectionEndsAtSymbol(content, p, q, k);
    SectionExists(content, Code, k);
    var m := FindAll(content, Code, 0)[k];
    var t := MarkStartsSpan(content, Code, k, m, q);
    SpanIsStored("code", content, t);
    TrimmedSlice(content, Span(p, q));
    TrimmedSlice(content, m);
  }

  /** Everything but code is cut at headings: each heading starts a stored chunk, unless it lies inside the match of an
      earlier heading that does. */
  lemma OtherTextIsCutAtHeadings(kind: string, content: string, i: nat) returns (p: nat, e: nat, end: nat)
    requires kind != "code" && HeadingAt(content, i)
    ensures p <= i < e <= |content| && HeadingAt(content, p) && IsChunk(kind, content, p, end)
    ensures exists a, b :: HeadingMatch(content, p, a, b, e)
  {
    hide Normalize, ChunkTexts, FindAll, DocumentSpans, Trim, MatchEnd, HeadingMatch;
    HeadingMatches(content, i);
    var m := FindAllComplete(content, Markdown, 0, i);
    FoundMatches(content, Markdown, 0, m);
    HeadingMatches(content, m.start);
    var k :| 0 <= k < |FindAll(content, Markdown, 0)| && FindAll(content, Markdown, 0)[k] == m;
    SectionExists(content, Markdown, k);
    var t := MarkStartsSpan(content, Markdown, k, m, SectionEnd(content, FindAll(content, Markdown, 0), k));
    SpanIsStored(kind, content, t);
    p, e, end := m.start, m.end, t.end;
  }

  // ---------------------------------------------------------------------------------------------
  // All chunks of a document
  // ---------------------------------------------------------------------------------------------

  function SizeChunks(part: string): seq<string> { Slices(part, SizeSpans(part, 4096, 200)) }

  /** What stands before the first mark: one chunk of code, otherwise split by size. */
  function Before(text: string, code: bool, end: nat): seq<string>
    requires end <= |text|
  {
    var preamble := Strip(text[..end]);
    if preamble == "" then [] else if code then [preamble] else SizeChunks(preamble)
  }

  /** The section of mark `m` up to the next one: one chunk of at most 4096 characters, or the mark by itself and the
      rest split by size. */
  function SectionOfMark(text: string, m: Span, end: nat): seq<string>
    requires m.start < m.end <= end <= |text|
  {
    var section := Strip(text[m.start..end]);
    if |section| <= 4096 then [section]
    else [Strip(text[m.start..m.end])] + SizeChunks(Strip(text[m.end..end]))
  }

  /** What stands before the first of `n` marks, and the section of each. */
  function SectionTexts(text: string, code: bool, marks: seq<Span>, n: nat): seq<string>
    requires Marks(text, marks, 0) && marks != [] && n <= |marks|
  {
    if n == 0 then Before(text, code, marks[0].start)
    else
      var end := if n == |marks| then |text| else marks[n].start;
      SectionTexts(text, code, marks, n - 1) + SectionOfMark(text, marks[n - 1], end)
  }

  lemma OnePart(text: string, w: Span, t: Span)
    requires Within(w, text) && Within(t, text) && t == Trim(text, w)
    ensures Slices(text, [t]) == [Strip(text[w.start..w.end])]
    ensures |Strip(text[w.start..w.end])| == t.end - t.start
  {
    TrimIsStrip(text, w);
    hide Strip, Trim;
    assert [t][..0] == [];
  }

  lemma SplitPart(text: string, w: Span)
    requires Within(w, text)
    ensures Slices(text, SizeSpansOf(text, Trim(text, w))) == SizeChunks(Strip(text[w.start..w.end]))
  {
    TrimIsStrip(text, w);
    hide Strip, Trim, SizeSpans, SizeSpansOf, Slices, IsSpace;
    SlicesOfPart(text, Trim(text, w));
  }

  lemma PreambleText(text: string, kind: Kind, end: nat)
    requires end <= |text|
    ensures Slices(text, PreambleSpans(text, kind, end)) == Before(text, kind == Code, end)
  {
    hide Strip, Trim, SizeSpansOf, Slices, SizeChunks, IsSpace, SizeSpans;
    assert text[0..end] == text[..end];
    OnePart(text, Span(0, end), Trim(text, Span(0, end)));
    SplitPart(text, Span(0, end));
    NoSlices(text);
  }

  lemma LongSection(text: string, m: Span, end: nat)
    requires m.start < m.end <= end <= |text|
    ensures var t, body := Trim(text, m), SizeSpansOf(text, Trim(text, Span(m.end, end)));
      Slices(text, [t] + body) == [Strip(text[m.start..m.end])] + SizeChunks(Strip(text[m.end..end]))
  {
    hide Strip, Trim, SizeSpansOf, Slices, SizeChunks, IsSpace, SizeSpans;
    OnePart(text, m, Trim(text, m));
    SplitPart(text, Span(m.end, end));
    SlicesConcat(text, [Trim(text, m)], SizeSpansOf(text, Trim(text, Span(m.end, end))));
  }

  lemma SectionText(text: string, m: Span, end: nat)
    requires m.start < m.end <= end <= |text|
    ensures Slices(text, SectionSpans(text, m, end)) == SectionOfMark(text, m, end)
  {
    hide Strip, Trim, SizeSpansOf, Slices, SizeChunks, IsSpace, SizeSpans;
    OnePart(text, Span(m.start, end), Trim(text, Span(m.start, end)));
    LongSection(text, m, end);
  }

  lemma {:induction false} SectionsText(text: string, kind: Kind, marks: seq<Span>, n: nat)
    requires Marks(text, marks, 0) && marks != [] && n <= |marks|
    ensures Slices(text, SectionsUpTo(text, kind, marks, n)) == SectionTexts(text, kind == Code, marks, n)
  {
    hide Slices, Before, SectionOfMark, PreambleSpans, SectionSpans, IsSpace;
    if n == 0 {
      PreambleText(text, kind, marks[0].start);
    } else {
      var m, end := marks[n - 1], SectionEnd(text, marks, n - 1);
      SectionsText(text, kind, marks, n - 1);
      SectionText(text, m, end);
      SlicesConcat(text, SectionsUpTo(text, kind, marks, n - 1), SectionSpans(text, m, end));
    }
  }

  /** A document is cut at its marks, code at its symbols and all other kinds at their headings; only longer parts are
      split by size, and a document without marks as a whole. */
  lemma DocumentIsItsSections(kind: string, content: string)
    ensures var marks := FindAll(content, if kind == "code" then Code else Markdown, 0);
      && (marks != [] ==> Marks(content, marks, 0))
      && ChunkTexts(kind, content) == NormalizeAll(
           if marks == [] then SizeChunks(content) else SectionTexts(content, kind == "code", marks, |marks|))
  {
    var k := if kind == "code" then Code else Markdown;
    var marks := FindAll(content, k, 0);
    FindAllMarks(content, k, 0);
    hide FindAll, NormalizeAll, SectionTexts, IsSpace, Slices, SectionsUpTo, SizeSpans;
    if marks != [] {
      SectionsText(content, k, marks, |marks|);
    }
  }
}

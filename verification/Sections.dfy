/** Documents cut into sections: Markdown at its headings, code at its top-level symbols. */
module Sections {
  import opened Text
  import opened Chunking

  // ---------------------------------------------------------------------------------------------
  // Section marks: the matches of the two multi-line patterns
  // ---------------------------------------------------------------------------------------------

  /** Markdown is cut at headings, code at top-level symbols. */
  datatype Kind = Markdown | Code

  predicate LineStart(text: string, i: nat) { i <= |text| && (i == 0 || text[i - 1] == '\n') }

  /** Where a match of `(class |def |async def )` at `i` ends, or -1. */
  function SymbolEnd(text: string, i: nat): int {
    if OccursAt(text, "class ", i) then i + 6
    else if OccursAt(text, "def ", i) then i + 4
    else if OccursAt(text, "async def ", i) then i + 10
    else -1
  }

  /** The end of the run of `#` from `i` on. */
  function HashEnd(text: string, i: nat): (e: nat)
    requires i <= |text|
    ensures i <= e <= |text| && (e < |text| ==> text[e] != '#')
    ensures forall p :: i <= p < e ==> text[p] == '#'
    decreases |text| - i
  {
    if i < |text| && text[i] == '#' then HashEnd(text, i + 1) else i
  }

  /** The end of the line from `i` on. */
  function LineEnd(text: string, i: nat): (e: nat)
    requires i <= |text|
    ensures i <= e <= |text| && (e < |text| ==> text[e] == '\n')
    ensures forall p :: i <= p < e ==> text[p] != '\n'
    decreases |text| - i
  {
    if i < |text| && text[i] != '\n' then LineEnd(text, i + 1) else i
  }

  /** The end of [from, end) without its trailing line feeds. */
  function DropLineFeeds(text: string, from: nat, end: nat): (e: nat)
    requires from <= end <= |text|
    ensures from <= e <= end && (from < e ==> text[e - 1] != '\n')
    ensures forall p :: e <= p < end ==> text[p] == '\n'
  {
    if from < end && text[end - 1] == '\n' then DropLineFeeds(text, from, end - 1) else end
  }

  /** Where a match of `(#{1,6})\s+(.+)` at `i` ends, or -1. The white space may run over line ends; if nothing but
      white space follows, it gives back just enough of it for the title. */
  function HeadingEnd(text: string, i: nat): (r: int)
    requires i <= |text|
    ensures r == -1 || i < r <= |text|
  {
    var a := HashEnd(text, i);
    if a == i || a > i + 6 then -1
    else
      var b := FirstNonSpace(text, a, |text|);
      if b == a then -1
      else if b < |text| then LineEnd(text, b)
      else
        var e := DropLineFeeds(text, a + 1, b);
        if e == a + 1 then -1 else e
  }

  /** A way for `(#{1,6})\s+(.+)` to match [i, e): hashes up to `a`, white space up to `b`, the title up to `e`. */
  ghost predicate HeadingMatch(text: string, i: nat, a: nat, b: nat, e: nat) {
    && i < a <= i + 6 && a < b < e <= |text|
    && (forall p :: i <= p < a ==> text[p] == '#')
    && (forall p :: a <= p < b ==> IsSpace(text[p]))
    && (forall p :: b <= p < e ==> text[p] != '\n')
  }

  /** Of two ways to match, the one that greedy matching tries first. */
  predicate TriedBefore(a: nat, b: nat, e: nat, a': nat, b': nat, e': nat) {
    a > a' || (a == a' && (b > b' || (b == b' && e >= e')))
  }

  /** Where the title starts in the match that `HeadingEnd` finds. */
  function TitleStart(text: string, i: nat): nat
    requires i <= |text| && HeadingEnd(text, i) != -1
  {
    var b := FirstNonSpace(text, HashEnd(text, i), |text|);
    if b < |text| then b else HeadingEnd(text, i) - 1
  }

  /** `HeadingEnd` is the end of the match that greedy matching with backtracking finds: there is a match exactly if
      there is any way to match, and no way to match is tried before it. */
  lemma HeadingEndIsGreedy(text: string, i: nat)
    requires i <= |text|
    ensures HeadingEnd(text, i) != -1 ==>
      && HeadingMatch(text, i, HashEnd(text, i), TitleStart(text, i), HeadingEnd(text, i))
      && forall a, b, e {:trigger HeadingMatch(text, i, a, b, e)} :: HeadingMatch(text, i, a, b, e) ==>
           TriedBefore(HashEnd(text, i), TitleStart(text, i), HeadingEnd(text, i), a, b, e)
    ensures HeadingEnd(text, i) == -1 ==> forall a, b, e :: !HeadingMatch(text, i, a, b, e)
  {
    assert IsSpace('\n');
    hide IsSpace, FirstNonSpace, LineEnd, DropLineFeeds, HashEnd;
    forall a, b, e | HeadingMatch(text, i, a, b, e)
      ensures HeadingEnd(text, i) != -1
      ensures TriedBefore(HashEnd(text, i), TitleStart(text, i), HeadingEnd(text, i), a, b, e)
    {
      hide HeadingEnd, TitleStart;
      TriedLater(text, i, a, b, e);
    }
  }

  lemma HashesEnd(text: string, i: nat, a: nat, b: nat, e: nat)
    requires HeadingMatch(text, i, a, b, e)
    ensures HashEnd(text, i) == a
  {
    assert IsSpace(text[a]) && !IsSpace('#');
    hide IsSpace, HashEnd;
  }

  lemma SpacesEnd(text: string, i: nat, a: nat, b: nat, e: nat)
    requires HeadingMatch(text, i, a, b, e)
    ensures var f := FirstNonSpace(text, a, |text|);
      && f > a && b <= f
      && (f < |text| && b == f ==> e <= LineEnd(text, b))
      && (f == |text| ==> b < DropLineFeeds(text, a + 1, f) && e <= DropLineFeeds(text, a + 1, f))
  {
    hide IsSpace, FirstNonSpace, LineEnd, DropLineFeeds;
    assert text[b] != '\n' && text[e - 1] != '\n';
  }

  lemma HashCount(text: string, i: nat, a: nat, b: nat, e: nat)
    requires HeadingMatch(text, i, a, b, e)
    ensures i < a <= i + 6 && a < b < e
  {
  }

  lemma TriedLater(text: string, i: nat, a: nat, b: nat, e: nat)
    requires HeadingMatch(text, i, a, b, e)
    ensures HeadingEnd(text, i) != -1 && TriedBefore(a, TitleStart(text, i), HeadingEnd(text, i), a, b, e)
    ensures a == HashEnd(text, i)
  {
    hide HeadingMatch, HashEnd, FirstNonSpace, LineEnd, DropLineFeeds;
    HashesEnd(text, i, a, b, e);
    HashCount(text, i, a, b, e);
    SpacesEnd(text, i, a, b, e);
  }

  function MatchEnd(text: string, kind: Kind, i: nat): (r: int)
    requires i <= |text|
    ensures r == -1 || (i < r <= |text| && !IsSpace(text[i]))
  {
    if !LineStart(text, i) then -1
    else if kind.Code? then
      SymbolsAreWords(text, i);
      SymbolEnd(text, i)
    else HeadingEnd(text, i)
  }

  lemma SymbolsAreWords(text: string, i: nat)
    ensures SymbolEnd(text, i) != -1 ==> i < SymbolEnd(text, i) <= |text| && !IsSpace(text[i])
  {
    if OccursAt(text, "class ", i) {
      OccurrenceStarts(text, "class ", i);
    } else if OccursAt(text, "def ", i) {
      OccurrenceStarts(text, "def ", i);
    } else if OccursAt(text, "async def ", i) {
      OccurrenceStarts(text, "async def ", i);
    }
  }

  /** All matches from `from` on, left to right, none overlapping the one before. */
  function FindAll(text: string, kind: Kind, from: nat): (marks: seq<Span>)
    requires from <= |text|
    decreases |text| - from
  {
    var e := MatchEnd(text, kind, from);
    if e != -1 then [Span(from, e)] + FindAll(text, kind, e)
    else if from == |text| then []
    else FindAll(text, kind, from + 1)
  }

  /** Non-empty spans in order and apart, each starting with something other than white space. */
  ghost predicate Marks(text: string, marks: seq<Span>, from: nat) {
    && (forall i :: 0 <= i < |marks| ==>
          from <= marks[i].start < marks[i].end <= |text| && !IsSpace(text[marks[i].start]))
    && (forall i :: 0 < i < |marks| ==> marks[i - 1].end <= marks[i].start)
  }

  lemma {:induction false} FindAllMarks(text: string, kind: Kind, from: nat)
    requires from <= |text|
    ensures Marks(text, FindAll(text, kind, from), from)
    decreases |text| - from
  {
    hide MatchEnd, IsSpace;
    var e := MatchEnd(text, kind, from);
    if e != -1 {
      FindAllMarks(text, kind, e);
    } else if from < |text| {
      FindAllMarks(text, kind, from + 1);
    }
  }

  /** Every place where the pattern matches is a mark or lies inside one. */
  lemma {:induction false} FindAllComplete(text: string, kind: Kind, from: nat, i: nat) returns (m: Span)
    requires from <= i <= |text| && MatchEnd(text, kind, i) != -1
    ensures m in FindAll(text, kind, from) && Contains(m, i)
    ensures m.end == MatchEnd(text, kind, m.start)
    decreases |text| - from
  {
    hide MatchEnd, IsSpace;
    var e := MatchEnd(text, kind, from);
    if e != -1 && i < e {
      m := Span(from, e);
    } else if e != -1 {
      m := FindAllComplete(text, kind, e, i);
    } else {
      m := FindAllComplete(text, kind, from + 1, i);
    }
  }

  // ---------------------------------------------------------------------------------------------
  // Sections
  // ---------------------------------------------------------------------------------------------

  function Shift(spans: seq<Span>, k: nat): (r: seq<Span>)
    ensures |r| == |spans| && forall i :: 0 <= i < |r| ==> r[i] == Span(spans[i].start + k, spans[i].end + k)
  {
    if spans == [] then []
    else Shift(spans[..|spans| - 1], k) + [Span(spans[|spans| - 1].start + k, spans[|spans| - 1].end + k)]
  }

  /** The size splitter applied to a part of the text. */
  function SizeSpansOf(text: string, w: Span): (spans: seq<Span>)
    requires Within(w, text)
    ensures AllWithin(spans, text)
    ensures forall t :: t in spans ==> Fits(text, w, t)
  {
    var spans := SizeSpans(Slice(text, w), MAX_CHUNK_CHARS, OVERLAP_CHARS);
    SizeSpansSolid(Slice(text, w));
    ShiftFits(text, w, spans);
    Shift(spans, w.start)
  }

  /** A stripped part of `w` within the size limit. */
  predicate Fits(text: string, w: Span, t: Span) {
    Solid(text, t) && t.end - t.start <= MAX_CHUNK_CHARS && w.start <= t.start && t.end <= w.end
  }

  lemma ShiftFits(text: string, w: Span, spans: seq<Span>)
    requires Within(w, text)
    requires forall t :: t in spans ==> Solid(Slice(text, w), t) && t.end - t.start <= MAX_CHUNK_CHARS
    ensures AllWithin(Shift(spans, w.start), text)
    ensures forall t :: t in Shift(spans, w.start) ==> Fits(text, w, t)
  {
    hide IsSpace, Solid, Slice, Shift, Fits;
    forall t | t in Shift(spans, w.start) ensures Within(t, text) && Fits(text, w, t) {
      var x := ShiftMember(spans, w.start, t);
      ShiftSolid(text, w, x);
    }
  }

  lemma ShiftMember(spans: seq<Span>, k: nat, t: Span) returns (x: Span)
    requires t in Shift(spans, k)
    ensures x in spans && t == Span(x.start + k, x.end + k)
  {
    var i :| 0 <= i < |Shift(spans, k)| && Shift(spans, k)[i] == t;
    x := spans[i];
  }

  lemma ShiftSolid(text: string, w: Span, x: Span)
    requires Within(w, text) && Solid(Slice(text, w), x) && x.end - x.start <= MAX_CHUNK_CHARS
    ensures var t := Span(x.start + w.start, x.end + w.start); Within(t, text) && Fits(text, w, t)
  {
    hide IsSpace;
    var part := Slice(text, w);
    assert part[x.start] == text[x.start + w.start] && part[x.end - 1] == text[x.end - 1 + w.start];
  }

  lemma SizeSpansSolid(text: string)
    ensures forall t :: t in SizeSpans(text, MAX_CHUNK_CHARS, OVERLAP_CHARS) ==> Solid(text, t)
  {
    hide IsSpace, Strip, Windows;
    if Strip(text) != [] && |text| <= MAX_CHUNK_CHARS {
      TrimIsStrip(text, Span(0, |text|));
      assert Slice(text, Span(0, |text|)) == text;
    }
  }

  /** The chunks before the first mark: a Markdown preamble is split by size, a code preamble is one chunk. */
  function PreambleSpans(text: string, kind: Kind, end: nat): (spans: seq<Span>)
    requires end <= |text|
    ensures AllWithin(spans, text)
  {
    var p := Trim(text, Span(0, end));
    if p.start == p.end then []
    else if kind.Markdown? then SizeSpansOf(text, p)
    else [p]
  }

  /** The chunks of the section that starts with mark `m` and ends at `end`: one, unless that is too long; then the
      mark by itself and the rest split by size. */
  function SectionSpans(text: string, m: Span, end: nat): (spans: seq<Span>)
    requires m.start < m.end <= end <= |text|
    ensures AllWithin(spans, text)
  {
    var section := Trim(text, Span(m.start, end));
    if section.end - section.start > MAX_CHUNK_CHARS then
      [Trim(text, m)] + SizeSpansOf(text, Trim(text, Span(m.end, end)))
    else [section]
  }

  function SectionEnd(text: string, marks: seq<Span>, i: nat): nat {
    if i + 1 < |marks| then marks[i + 1].start else |text|
  }

  /** The chunks of the preamble and of the first `n` sections. */
  function SectionsUpTo(text: string, kind: Kind, marks: seq<Span>, n: nat): (spans: seq<Span>)
    requires Marks(text, marks, 0) && marks != [] && n <= |marks|
    ensures AllWithin(spans, text)
  {
    if n == 0 then PreambleSpans(text, kind, marks[0].start)
    else SectionsUpTo(text, kind, marks, n - 1) + SectionSpans(text, marks[n - 1], SectionEnd(text, marks, n - 1))
  }

  function DocumentSpans(text: string, kind: Kind): (spans: seq<Span>)
    ensures AllWithin(spans, text)
  {
    var marks := FindAll(text, kind, 0);
    FindAllMarks(text, kind, 0);
    if marks == [] then SizeSpans(text, MAX_CHUNK_CHARS, OVERLAP_CHARS)
    else SectionsUpTo(text, kind, marks, |marks|)
  }

  // ---------------------------------------------------------------------------------------------
  // Nothing but white space is lost
  // ---------------------------------------------------------------------------------------------

  lemma KeepsConcat(text: string, a: seq<Span>, b: seq<Span>, from: nat, mid: nat, end: nat)
    requires mid <= end && Keeps(text, a, from, mid) && Keeps(text, b, mid, end)
    ensures Keeps(text, a + b, from, end)
  {
    forall p | from <= p < end <= |text| && !IsSpace(text[p]) ensures exists w :: w in a + b && Contains(w, p) {
      if p < mid <= |text| {
        var w :| w in a && Contains(w, p);
        assert w in a + b;
      } else if mid <= p {
        var w :| w in b && Contains(w, p);
        assert w in a + b;
      }
    }
  }

  /** Trimming a span first changes nothing. */
  lemma KeepsTrimmed(text: string, spans: seq<Span>, w: Span)
    requires Within(w, text) && Keeps(text, spans, Trim(text, w).start, Trim(text, w).end)
    ensures Keeps(text, spans, w.start, w.end)
  {
  }

  lemma KeepsSelf(text: string, w: Span)
    requires Within(w, text)
    ensures Keeps(text, [w], w.start, w.end)
  {
    assert w in [w] && forall p: nat :: w.start <= p < w.end ==> Contains(w, p);
  }

  lemma SizeSpansOfKeep(text: string, w: Span)
    requires Within(w, text)
    ensures Keeps(text, SizeSpansOf(text, w), w.start, w.end)
  {
    var part := Slice(text, w);
    var spans := SizeSpans(part, MAX_CHUNK_CHARS, OVERLAP_CHARS);
    SizeSpansKeep(part, MAX_CHUNK_CHARS, OVERLAP_CHARS);
    hide SizeSpans;
    ShiftKeeps(text, w, spans);
  }

  lemma ShiftKeeps(text: string, w: Span, spans: seq<Span>)
    requires Within(w, text) && Keeps(Slice(text, w), spans, 0, w.end - w.start)
    ensures Keeps(text, Shift(spans, w.start), w.start, w.end)
  {
    var moved := Shift(spans, w.start);
    forall p | w.start <= p < w.end && !IsSpace(text[p]) ensures exists x :: x in moved && Contains(x, p) {
      var q := p - w.start;
      assert Slice(text, w)[q] == text[p];
      var x :| x in spans && Contains(x, q);
      var i :| 0 <= i < |spans| && spans[i] == x;
      assert moved[i] in moved && Contains(moved[i], p);
    }
  }

  lemma PreambleKeeps(text: string, kind: Kind, end: nat)
    requires end <= |text|
    ensures Keeps(text, PreambleSpans(text, kind, end), 0, end)
  {
    var w := Span(0, end);
    var p := Trim(text, w);
    hide IsSpace, Keeps, SizeSpansOf, Trim;
    if p.start == p.end {
      NothingToKeep(text, w);
    } else {
      SizeSpansOfKeep(text, p);
      KeepsSelf(text, p);
      KeepsTrimmed(text, PreambleSpans(text, kind, end), w);
    }
  }

  lemma NothingToKeep(text: string, w: Span)
    requires Within(w, text) && Trim(text, w).start == Trim(text, w).end
    ensures Keeps(text, [], w.start, w.end)
  {
  }

  lemma SectionKeeps(text: string, m: Span, end: nat)
    requires m.start < m.end <= end <= |text|
    ensures Keeps(text, SectionSpans(text, m, end), m.start, end)
  {
    var w := Span(m.start, end);
    hide IsSpace, Keeps, SizeSpansOf, Trim, Solid, Contains;
    LongSectionKeeps(text, m, end);
    KeepsSelf(text, Trim(text, w));
    KeepsTrimmed(text, [Trim(text, w)], w);
  }

  lemma LongSectionKeeps(text: string, m: Span, end: nat)
    requires m.start < m.end <= end <= |text|
    ensures Keeps(text, [Trim(text, m)] + SizeSpansOf(text, Trim(text, Span(m.end, end))), m.start, end)
  {
    var title, rest := Trim(text, m), Span(m.end, end);
    var body := SizeSpansOf(text, Trim(text, rest));
    hide IsSpace, Keeps, SizeSpansOf, Trim, Solid, Contains;
    KeepsSelf(text, title);
    KeepsTrimmed(text, [title], m);
    SizeSpansOfKeep(text, Trim(text, rest));
    KeepsTrimmed(text, body, rest);
    KeepsConcat(text, [title], body, m.start, m.end, end);
  }

  function SectionStart(text: string, marks: seq<Span>, n: nat): nat {
    if n < |marks| then marks[n].start else |text|
  }

  lemma {:induction false} SectionsKeep(text: string, kind: Kind, marks: seq<Span>, n: nat)
    requires Marks(text, marks, 0) && marks != [] && n <= |marks|
    ensures Keeps(text, SectionsUpTo(text, kind, marks, n), 0, SectionStart(text, marks, n))
  {
    hide Keeps, SectionSpans, PreambleSpans, IsSpace;
    if n == 0 {
      PreambleKeeps(text, kind, marks[0].start);
    } else {
      SectionsKeep(text, kind, marks, n - 1);
      var m, end := marks[n - 1], SectionEnd(text, marks, n - 1);
      SectionKeeps(text, m, end);
      KeepsConcat(text, SectionsUpTo(text, kind, marks, n - 1), SectionSpans(text, m, end), 0, m.start, end);
    }
  }

  /** No character other than white space is lost when a document is chunked. */
  lemma DocumentKeeps(text: string, kind: Kind)
    ensures Keeps(text, DocumentSpans(text, kind), 0, |text|)
  {
    var marks := FindAll(text, kind, 0);
    FindAllMarks(text, kind, 0);
    hide Keeps, FindAll, Marks;
    if marks == [] {
      SizeSpansKeep(text, MAX_CHUNK_CHARS, OVERLAP_CHARS);
    } else {
      SectionsKeep(text, kind, marks, |marks|);
    }
  }

  // ---------------------------------------------------------------------------------------------
  // What a chunk looks like
  // ---------------------------------------------------------------------------------------------

  /** Stripped, not blank, and longer than the limit only as a trimmed mark or as the preamble of a code file. */
  ghost predicate Chunk(text: string, kind: Kind, marks: seq<Span>, t: Span) {
    && Solid(text, t)
    && (t.end - t.start <= MAX_CHUNK_CHARS
        || (exists m :: m in marks && Within(m, text) && t == Trim(text, m))
        || (kind.Code? && marks != [] && t.end <= marks[0].start))
  }

  lemma PreambleChunks(text: string, kind: Kind, marks: seq<Span>, t: Span)
    requires Marks(text, marks, 0) && marks != [] && t in PreambleSpans(text, kind, marks[0].start)
    ensures Chunk(text, kind, marks, t)
  {
  }

  lemma StartsNonBlank(text: string, m: Span)
    requires m.start < m.end <= |text| && !IsSpace(text[m.start])
    ensures Trim(text, m).start < Trim(text, m).end
  {
  }

  lemma SectionChunks(text: string, kind: Kind, marks: seq<Span>, i: nat, end: nat, t: Span)
    requires i < |marks| && marks[i].start < marks[i].end <= end <= |text| && !IsSpace(text[marks[i].start])
    requires t in SectionSpans(text, marks[i], end)
    ensures Chunk(text, kind, marks, t)
  {
    hide IsSpace, Trim, SizeSpansOf, Solid;
    var m := marks[i];
    assert m in marks && Within(m, text);
    StartsNonBlank(text, m);
    StartsNonBlank(text, Span(m.start, end));
    assert t in SizeSpansOf(text, Trim(text, Span(m.end, end))) ==> Fits(text, Trim(text, Span(m.end, end)), t);
  }

  lemma {:induction false} SectionsChunks(text: string, kind: Kind, marks: seq<Span>, n: nat, t: Span)
    requires Marks(text, marks, 0) && marks != [] && n <= |marks| && t in SectionsUpTo(text, kind, marks, n)
    ensures Chunk(text, kind, marks, t)
  {
    hide Chunk, SectionSpans, PreambleSpans, IsSpace;
    if n == 0 {
      PreambleChunks(text, kind, marks, t);
    } else if t in SectionsUpTo(text, kind, marks, n - 1) {
      SectionsChunks(text, kind, marks, n - 1, t);
    } else {
      SectionChunks(text, kind, marks, n - 1, SectionEnd(text, marks, n - 1), t);
    }
  }

  lemma DocumentChunks(text: string, kind: Kind, t: Span)
    requires t in DocumentSpans(text, kind)
    ensures Chunk(text, kind, FindAll(text, kind, 0), t)
  {
    var marks := FindAll(text, kind, 0);
    FindAllMarks(text, kind, 0);
    hide FindAll, Marks;
    if marks == [] {
      SizeSpansSolid(text);
    } else {
      hide Chunk;
      SectionsChunks(text, kind, marks, |marks|, t);
    }
  }

  // ---------------------------------------------------------------------------------------------
  // The program
  // ---------------------------------------------------------------------------------------------

  lemma {:induction false} SlicesConcat(text: string, a: seq<Span>, b: seq<Span>)
    requires AllWithin(a, text) && AllWithin(b, text)
    ensures AllWithin(a + b, text) && Slices(text, a + b) == Slices(text, a) + Slices(text, b)
  {
  }

  /** Splitting a part of the text gives the slices of the shifted spans. */
  lemma SlicesOfPart(text: string, w: Span)
    requires Within(w, text)
    ensures var part := Slice(text, w);
      Slices(part, SizeSpans(part, MAX_CHUNK_CHARS, OVERLAP_CHARS)) == Slices(text, SizeSpansOf(text, w))
  {
    var spans := SizeSpans(Slice(text, w), MAX_CHUNK_CHARS, OVERLAP_CHARS);
    assert SizeSpansOf(text, w) == Shift(spans, w.start);
    hide SizeSpans, SizeSpansOf, Slices, Slice, Shift, Solid;
    ShiftSlices(text, w, spans);
  }

  lemma ShiftSlices(text: string, w: Span, spans: seq<Span>)
    requires Within(w, text) && AllWithin(spans, Slice(text, w)) && AllWithin(Shift(spans, w.start), text)
    ensures Slices(Slice(text, w), spans) == Slices(text, Shift(spans, w.start))
  {
    var moved := Shift(spans, w.start);
    hide Slices, Shift, Slice;
    forall i | 0 <= i < |spans| ensures Slices(Slice(text, w), spans)[i] == Slices(text, moved)[i] {
      assert spans[i] in spans;
      SliceOfSlice(text, w, spans[i]);
    }
  }

  lemma SliceOfSlice(text: string, w: Span, t: Span)
    requires Within(w, text) && Within(t, Slice(text, w))
    ensures Slice(Slice(text, w), t) == Slice(text, Span(t.start + w.start, t.end + w.start))
  {
  }

  predicate HasText(chunk: string) { Strip(chunk) != [] }

  function NonBlank(chunks: seq<string>): seq<string> {
    if chunks == [] then []
    else
      var rest, last := NonBlank(chunks[..|chunks| - 1]), chunks[|chunks| - 1];
      if HasText(last) then rest + [last] else rest
  }

  lemma {:induction false} NonBlankKeepsAll(chunks: seq<string>)
    requires forall i :: 0 <= i < |chunks| ==> HasText(chunks[i])
    ensures NonBlank(chunks) == chunks
  {
    hide HasText;
    if chunks != [] {
      NonBlankKeepsAll(chunks[..|chunks| - 1]);
      assert chunks == chunks[..|chunks| - 1] + [chunks[|chunks| - 1]];
    }
  }

  /** The final filter of blank chunks never finds one. */
  lemma NoChunkIsBlank(text: string, kind: Kind)
    ensures NonBlank(Slices(text, DocumentSpans(text, kind))) == Slices(text, DocumentSpans(text, kind))
  {
    var spans := DocumentSpans(text, kind);
    var chunks := Slices(text, spans);
    hide DocumentSpans, HasText, IsSpace;
    forall i | 0 <= i < |chunks| ensures HasText(chunks[i]) {
      assert spans[i] in spans;
      DocumentChunks(text, kind, spans[i]);
      SolidIsNotBlank(text, spans[i]);
    }
    NonBlankKeepsAll(chunks);
  }

  lemma SolidIsNotBlank(text: string, t: Span)
    requires Solid(text, t)
    ensures HasText(Slice(text, t))
  {
    assert Slice(text, t)[0] == text[t.start];
    StripEmptyIffBlank(Slice(text, t));
  }

  method ChunkPart(text: string, w: Span) returns (chunks: seq<string>)
    requires Within(w, text)
    ensures chunks == Slices(text, SizeSpansOf(text, Trim(text, w)))
  {
    hide SizeSpansOf, Trim, IsSpace, Strip;
    var part := Strip(text[w.start..w.end]);
    TrimIsStrip(text, w);
    SlicesOfPart(text, Trim(text, w));
    chunks := ChunkBySize(part, MAX_CHUNK_CHARS, OVERLAP_CHARS);
  }

  method ChunkPreamble(text: string, kind: Kind, end: nat) returns (chunks: seq<string>)
    requires end <= |text|
    ensures chunks == Slices(text, PreambleSpans(text, kind, end))
  {
    hide SizeSpansOf, Trim, IsSpace, Strip;
    chunks := [];
    if end > 0 {
      var preamble := Strip(text[..end]);
      TrimIsStrip(text, Span(0, end));
      if preamble != [] {
        if kind.Markdown? {
          SlicesOfPart(text, Trim(text, Span(0, end)));
          chunks := ChunkBySize(preamble, MAX_CHUNK_CHARS, OVERLAP_CHARS);
        } else {
          chunks := [preamble];
        }
      }
    }
  }

  method ChunkSection(text: string, m: Span, end: nat) returns (chunks: seq<string>)
    requires m.start < m.end <= end <= |text|
    ensures chunks == Slices(text, SectionSpans(text, m, end))
  {
    hide SizeSpansOf, Trim, IsSpace, Strip;
    var section := Strip(text[m.start..end]);
    TrimIsStrip(text, Span(m.start, end));
    if |section| > MAX_CHUNK_CHARS {
      TrimIsStrip(text, m);
      chunks := [Strip(text[m.start..m.end])];
      var body := ChunkPart(text, Span(m.end, end));
      SlicesConcat(text, [Trim(text, m)], SizeSpansOf(text, Trim(text, Span(m.end, end))));
      chunks := chunks + body;
    } else {
      chunks := [section];
    }
  }

  /** The Markdown chunker and the code chunker: they differ in the pattern and in what they do to the preamble. */
  method ChunkDocument(text: string, kind: Kind) returns (result: seq<string>)
    ensures result == Slices(text, DocumentSpans(text, kind))
  {
    hide SizeSpans, PreambleSpans, SectionSpans, IsSpace, Strip, Slices, FindAll;
    var marks := FindAll(text, kind, 0);
    FindAllMarks(text, kind, 0);
    if marks == [] {
      result := ChunkBySize(text, MAX_CHUNK_CHARS, OVERLAP_CHARS);
      return;
    }
    var chunks := ChunkPreamble(text, kind, marks[0].start);
    for i := 0 to |marks|
      invariant chunks == Slices(text, SectionsUpTo(text, kind, marks, i))
    {
      var end := if i + 1 < |marks| then marks[i + 1].start else |text|;
      var section := ChunkSection(text, marks[i], end);
      SlicesConcat(text, SectionsUpTo(text, kind, marks, i), SectionSpans(text, marks[i], end));
      chunks := chunks + section;
    }
    NoChunkIsBlank(text, kind);
    result := NonBlank(chunks);
  }
}

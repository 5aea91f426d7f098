/** Chunking of documents: overlapping windows by size, and sections by heading or top-level symbol.

    A chunk is a slice of the text, given by its span. */
module Chunking {
  import opened Common
  import opened Text

  const MAX_CHUNK_CHARS: nat := 4096
  const OVERLAP_CHARS: nat := 200

  datatype Span = Span(start: nat, end: nat)

  // ---------------------------------------------------------------------------------------------
  // Windows
  // ---------------------------------------------------------------------------------------------

  /** Where a window may be cut early: after the last paragraph break, line break or sentence end in the last
      `overlap` characters before `end`; -1 if there is none. */
  function Breakpoint(text: string, from: nat, end: nat): (r: int)
    requires from <= end <= |text|
    ensures r == -1 || from <= r < end
  {
    var paragraph := RFind(text, "\n\n", from, end);
    if paragraph != -1 then paragraph
    else
      var line := RFind(text, "\n", from, end);
      if line != -1 then line else RFind(text, ". ", from, end)
  }

  function WindowEnd(text: string, start: nat, maxChars: nat, overlap: nat): (end: nat)
    requires start < |text|
    ensures start <= end <= |text| && end - start <= maxChars
  {
    var end := Min(start + maxChars, |text|);
    if end < |text| then
      var from := if end - overlap < start then start else end - overlap;
      var found := Breakpoint(text, from, end);
      if found > start then found + 1 else end
    else end
  }

  /** Where the next window starts; negative for an overlap longer than the window. */
  function NextStart(text: string, start: nat, maxChars: nat, overlap: nat): int
    requires start < |text|
  {
    var end := WindowEnd(text, start, maxChars, overlap);
    if end < |text| then end - overlap else end
  }

  /** The size parameters under which the splitter always moves forward. */
  predicate Advancing(maxChars: nat, overlap: nat) { maxChars >= 1 && maxChars >= 2 * overlap }

  /** Every step that is not the last advances by at least max_chars - 2 * overlap, and one more if there is an
      overlap at all. */
  lemma StepAdvances(text: string, start: nat, maxChars: nat, overlap: nat)
    requires start < |text| && Advancing(maxChars, overlap)
    ensures WindowEnd(text, start, maxChars, overlap) < |text| ==>
      NextStart(text, start, maxChars, overlap) >= start + (maxChars - 2 * overlap) + if overlap > 0 then 1 else 0
    ensures NextStart(text, start, maxChars, overlap) > start
  {
  }

  /** `i` is the last place in [from, end) where `sub` occurs. */
  ghost predicate LastIn(text: string, sub: string, from: nat, end: nat, i: int) {
    && from <= i && i + |sub| <= end && OccursAt(text, sub, i)
    && forall j {:trigger OccursAt(text, sub, j)} :: i < j && j + |sub| <= end ==> !OccursAt(text, sub, j)
  }

  ghost predicate NoneIn(text: string, sub: string, from: nat, end: nat) {
    forall j {:trigger OccursAt(text, sub, j)} :: from <= j && j + |sub| <= end ==> !OccursAt(text, sub, j)
  }

  /** A window that is not the last ends behind the last paragraph break in its overlap zone; without one, behind the
      last line break; without that, behind the last sentence end; and otherwise at its full size. */
  lemma WindowEndsBehindBreak(text: string, start: nat, maxChars: nat, overlap: nat)
    requires Advancing(maxChars, overlap) && start + maxChars < |text|
    ensures var full, from := start + maxChars, start + maxChars - overlap;
      var end := WindowEnd(text, start, maxChars, overlap);
      || LastIn(text, "\n\n", from, full, end - 1)
      || (NoneIn(text, "\n\n", from, full) && LastIn(text, "\n", from, full, end - 1))
      || (NoneIn(text, "\n\n", from, full) && NoneIn(text, "\n", from, full) && LastIn(text, ". ", from, full, end - 1))
      || (NoneIn(text, "\n\n", from, full) && NoneIn(text, "\n", from, full) && NoneIn(text, ". ", from, full)
          && end == full)
  {
    hide RFind, OccursAt;
    var full, from := start + maxChars, start + maxChars - overlap;
    FoundIsLast(text, "\n\n", from, full);
    FoundIsLast(text, "\n", from, full);
    FoundIsLast(text, ". ", from, full);
    hide LastIn, NoneIn;
  }

  lemma FoundIsLast(text: string, sub: string, from: nat, end: nat)
    requires from <= end <= |text|
    ensures var r := RFind(text, sub, from, end);
      if r == -1 then NoneIn(text, sub, from, end) else LastIn(text, sub, from, end, r)
  {
    hide RFind, OccursAt;
  }

  function Repeat(c: char, n: nat): (s: string)
    ensures |s| == n && forall i :: 0 <= i < n ==> s[i] == c
  {
    if n == 0 then [] else [c] + Repeat(c, n - 1)
  }

  /** A window as long as the overlap, in a text without any break. */
  lemma StuckWithoutBreak(n: nat)
    ensures var text := Repeat('a', n + 1); |text| > n && NextStart(text, 0, n, n) == 0
  {
    var text := Repeat('a', n + 1);
    NoOccurrence(text, "\n\n", 0, n);
    NoOccurrence(text, "\n", 0, n);
    NoOccurrence(text, ". ", 0, n);
  }

  lemma NoOccurrence(text: string, sub: string, from: nat, end: nat)
    requires from <= end <= |text| && sub != [] && forall i :: from <= i < end ==> text[i] != sub[0]
    ensures RFind(text, sub, from, end) == -1
  {
    var r := RFind(text, sub, from, end);
    if r != -1 {
      OccurrenceStarts(text, sub, r);
      assert false;
    }
  }

  /** A line break placed so that cutting behind it leaves exactly the overlap. */
  lemma StuckAtLineBreak(maxChars: nat, overlap: nat)
    requires 2 <= overlap < maxChars < 2 * overlap
    ensures var text := Repeat('a', overlap - 1) + "\n" + Repeat('a', maxChars);
      |text| > maxChars && NextStart(text, 0, maxChars, overlap) == 0
  {
    var text := Repeat('a', overlap - 1) + "\n" + Repeat('a', maxChars);
    var from := maxChars - overlap;
    assert text[overlap - 1] == '\n' && forall i :: 0 <= i < |text| && i != overlap - 1 ==> text[i] == 'a';
    var p := RFind(text, "\n\n", from, maxChars);
    if p != -1 {
      OccurrenceStarts(text, "\n\n", p);
      assert false;
    }
    var r := RFind(text, "\n", from, maxChars);
    assert text[overlap - 1..overlap] == "\n";
    assert OccursAt(text, "\n", overlap - 1);
    if r != overlap - 1 {
      OccurrenceStarts(text, "\n", r);
      assert false;
    }
  }

  /** For an overlap that is not longer than the window, sizes that do not always advance have a text on which the
      first window is followed by itself. */
  lemma StuckText(maxChars: nat, overlap: nat) returns (text: string)
    requires !Advancing(maxChars, overlap) && overlap <= maxChars
    ensures Stuck(text, maxChars, overlap) && text[0] == 'a'
  {
    if maxChars == overlap {
      text := Repeat('a', maxChars + 1);
      StuckWithoutBreak(maxChars);
    } else {
      text := Repeat('a', overlap - 1) + "\n" + Repeat('a', maxChars);
      StuckAtLineBreak(maxChars, overlap);
    }
  }

  // ---------------------------------------------------------------------------------------------
  // Termination
  // ---------------------------------------------------------------------------------------------

  /** Where an index given to a search or a slice points: a negative one counts from the end, and what lies outside
      of the text is moved to its border. */
  function Index(i: int, n: nat): (r: nat)
    ensures r <= n
  {
    if i >= 0 then Min(i, n) else if i + n < 0 then 0 else i + n
  }

  function Search(text: string, sub: string, from: int, end: int): int {
    var a, b := Index(from, |text|), Index(end, |text|);
    if a > b then -1 else RFind(text, sub, a, b)
  }

  function SearchBreak(text: string, from: int, end: int): int {
    var paragraph := Search(text, "\n\n", from, end);
    if paragraph != -1 then paragraph
    else
      var line := Search(text, "\n", from, end);
      if line != -1 then line else Search(text, ". ", from, end)
  }

  /** One round of the splitter's loop from any position, also from one before the text: there a search that finds
      nothing counts as a break, and the window ends where the text starts. */
  function Round(text: string, start: int, maxChars: nat, overlap: nat): int {
    var full := if start + maxChars < |text| then start + maxChars else |text|;
    var found := SearchBreak(text, if full - overlap < start then start else full - overlap, full);
    var end := if full < |text| && found > start then found + 1 else full;
    if end < |text| then end - overlap else end
  }

  /** The position after `n` rounds; at the end of the text the loop is left. */
  function Position(text: string, maxChars: nat, overlap: nat, n: nat): int {
    if n == 0 then 0
    else
      var start := Position(text, maxChars, overlap, n - 1);
      if start < |text| then Round(text, start, maxChars, overlap) else start
  }

  /** The splitter returns: the text is blank or short, or the loop reaches its end. */
  ghost predicate Returns(text: string, maxChars: nat, overlap: nat) {
    Strip(text) == [] || |text| <= maxChars || exists n :: Position(text, maxChars, overlap, n) >= |text|
  }

  lemma RoundIsNextStart(text: string, start: nat, maxChars: nat, overlap: nat)
    requires start < |text|
    ensures Round(text, start, maxChars, overlap) == NextStart(text, start, maxChars, overlap)
  {
    hide SearchBreak, Breakpoint;
    var full := Min(start + maxChars, |text|);
    SearchBreakInside(text, if full - overlap < start then start else full - overlap, full);
  }

  lemma SearchBreakInside(text: string, from: nat, end: nat)
    requires from <= end <= |text|
    ensures SearchBreak(text, from, end) == Breakpoint(text, from, end)
  {
    hide RFind;
  }

  /** The window that starts at the start of the text is followed by itself. */
  predicate Stuck(text: string, maxChars: nat, overlap: nat) {
    |text| > maxChars && NextStart(text, 0, maxChars, overlap) == 0
  }

  lemma {:induction false} StuckForever(text: string, maxChars: nat, overlap: nat, n: nat)
    requires Stuck(text, maxChars, overlap)
    ensures Position(text, maxChars, overlap, n) == 0
  {
    hide Round, NextStart;
    if n > 0 {
      StuckForever(text, maxChars, overlap, n - 1);
      RoundIsNextStart(text, 0, maxChars, overlap);
    }
  }

  lemma NothingFound(text: string, from: int, end: int)
    requires forall i :: 0 <= i < |text| ==> text[i] == 'a'
    ensures SearchBreak(text, from, end) == -1
  {
    var a, b := Index(from, |text|), Index(end, |text|);
    if a <= b {
      NoOccurrence(text, "\n\n", a, b);
      NoOccurrence(text, "\n", a, b);
      NoOccurrence(text, ". ", a, b);
    }
  }

  /** With an overlap longer than the window, a text without any break is never left: every round ends before its
      start. */
  lemma {:induction false} BeforeForever(maxChars: nat, overlap: nat, n: nat)
    requires maxChars < overlap
    ensures Position(Repeat('a', maxChars + 1), maxChars, overlap, n) <= 0
  {
    hide SearchBreak, Repeat;
    if n > 0 {
      BeforeForever(maxChars, overlap, n - 1);
      var text := Repeat('a', maxChars + 1);
      var start := Position(text, maxChars, overlap, n - 1);
      var full := start + maxChars;
      NothingFound(text, if full - overlap < start then start else full - overlap, full);
    }
  }

  lemma NextIsBefore(maxChars: nat, overlap: nat)
    requires maxChars < overlap
    ensures NextStart(Repeat('a', maxChars + 1), 0, maxChars, overlap) < 0
  {
  }

  lemma StartsWithLetter(text: string)
    requires text != [] && text[0] == 'a'
    ensures Strip(text) != []
  {
    StripEmptyIffBlank(text);
    assert !IsSpace('a');
    hide Strip, IsSpace;
  }

  /** A text on which the splitter does not return. */
  lemma EndlessText(maxChars: nat, overlap: nat) returns (text: string)
    requires !Advancing(maxChars, overlap)
    ensures !Returns(text, maxChars, overlap)
    ensures text != [] && NextStart(text, 0, maxChars, overlap) <= 0
  {
    hide Strip, Repeat, NextStart, Position;
    if maxChars < overlap {
      text := Repeat('a', maxChars + 1);
      NextIsBefore(maxChars, overlap);
      forall n ensures Position(text, maxChars, overlap, n) <= 0 {
        BeforeForever(maxChars, overlap, n);
      }
    } else {
      text := StuckText(maxChars, overlap);
      forall n ensures Position(text, maxChars, overlap, n) == 0 {
        StuckForever(text, maxChars, overlap, n);
      }
    }
    StartsWithLetter(text);
  }

  /** Rounds that advance reach the end. */
  lemma {:induction false} Reaches(text: string, maxChars: nat, overlap: nat, n: nat)
    requires Advancing(maxChars, overlap)
    ensures var p := Position(text, maxChars, overlap, n); p >= |text| || p >= n
  {
    hide Round, NextStart;
    if n > 0 {
      Reaches(text, maxChars, overlap, n - 1);
      var start := Position(text, maxChars, overlap, n - 1);
      if start < |text| {
        RoundIsNextStart(text, start, maxChars, overlap);
        StepAdvances(text, start, maxChars, overlap);
      }
    }
  }

  /** The splitter returns on every text exactly if max_chars is positive and at least twice the overlap. */
  lemma ReturnsIff(maxChars: nat, overlap: nat)
    ensures (forall text: string :: Returns(text, maxChars, overlap)) <==> Advancing(maxChars, overlap)
  {
    hide Position, Strip, Advancing;
    if Advancing(maxChars, overlap) {
      forall text: string ensures Returns(text, maxChars, overlap) {
        Reaches(text, maxChars, overlap, |text|);
      }
    } else {
      var text := EndlessText(maxChars, overlap);
    }
  }

  ghost predicate AlwaysAdvances(maxChars: nat, overlap: nat) {
    forall text: string, start: nat :: start < |text| ==> NextStart(text, start, maxChars, overlap) > start
  }

  /** So do they: each window of every text starts behind the one before exactly for these sizes. */
  lemma AdvancesIff(maxChars: nat, overlap: nat)
    ensures AlwaysAdvances(maxChars, overlap) <==> Advancing(maxChars, overlap)
  {
    hide NextStart;
    if Advancing(maxChars, overlap) {
      forall text: string, start: nat | start < |text| ensures NextStart(text, start, maxChars, overlap) > start {
        StepAdvances(text, start, maxChars, overlap);
      }
    } else {
      var text := EndlessText(maxChars, overlap);
      assert NextStart(text, 0, maxChars, overlap) <= 0;
    }
  }

  /** The windows of a text from `start` on. */
  function Windows(text: string, start: nat, maxChars: nat, overlap: nat): (ws: seq<Span>)
    requires start <= |text| && Advancing(maxChars, overlap)
    ensures start < |text| ==> ws != []
    decreases |text| - start
  {
    if start == |text| then []
    else
      StepAdvances(text, start, maxChars, overlap);
      [Span(start, WindowEnd(text, start, maxChars, overlap))]
        + Windows(text, NextStart(text, start, maxChars, overlap), maxChars, overlap)
  }

  /** The windows start at `start` and end at the end of the text; consecutive windows share exactly `overlap`
      characters; none is longer than `maxChars`. */
  ghost predicate Tiling(text: string, start: nat, ws: seq<Span>, maxChars: nat, overlap: nat) {
    && ws != [] && ws[0].start == start && ws[|ws| - 1].end == |text|
    && (forall i :: 0 <= i < |ws| ==> ws[i].start < ws[i].end <= |text| && ws[i].end - ws[i].start <= maxChars)
    && (forall i :: 0 < i < |ws| ==> ws[i].start == ws[i - 1].end - overlap && ws[i - 1].start < ws[i].start)
    && (forall i :: 0 <= i < |ws| - 1 ==> ws[i].end < |text|)
  }

  lemma TilingCons(text: string, start: nat, end: nat, rest: seq<Span>, maxChars: nat, overlap: nat)
    requires start < end < |text| && end - start <= maxChars && overlap <= end && start < end - overlap
    requires Tiling(text, end - overlap, rest, maxChars, overlap)
    ensures Tiling(text, start, [Span(start, end)] + rest, maxChars, overlap)
  {
  }

  lemma {:induction false} WindowsTile(text: string, start: nat, maxChars: nat, overlap: nat)
    requires start < |text| && Advancing(maxChars, overlap)
    ensures Tiling(text, start, Windows(text, start, maxChars, overlap), maxChars, overlap)
    decreases |text| - start
  {
    hide WindowEnd, Tiling;
    StepAdvances(text, start, maxChars, overlap);
    var end, next := WindowEnd(text, start, maxChars, overlap), NextStart(text, start, maxChars, overlap);
    if end < |text| {
      WindowsTile(text, next, maxChars, overlap);
      TilingCons(text, start, end, Windows(text, next, maxChars, overlap), maxChars, overlap);
    } else {
      assert Windows(text, start, maxChars, overlap) == [Span(start, end)];
      LastWindow(text, start, end, maxChars, overlap);
    }
  }

  lemma LastWindow(text: string, start: nat, end: nat, maxChars: nat, overlap: nat)
    requires start < end == |text| && end - start <= maxChars
    ensures Tiling(text, start, [Span(start, end)], maxChars, overlap)
  {
  }

  /** Every position from window `k` on is in some window. */
  lemma {:induction false} TilingCovers(text: string, start: nat, ws: seq<Span>, maxChars: nat, overlap: nat,
                                        p: nat, k: nat) returns (i: nat)
    requires Tiling(text, start, ws, maxChars, overlap) && k < |ws| && ws[k].start <= p < |text|
    ensures i < |ws| && ws[i].start <= p < ws[i].end
    decreases |ws| - k
  {
    if p < ws[k].end {
      i := k;
    } else {
      i := TilingCovers(text, start, ws, maxChars, overlap, p, k + 1);
    }
  }

  // ---------------------------------------------------------------------------------------------
  // Trimmed spans
  // ---------------------------------------------------------------------------------------------

  predicate Within(w: Span, text: string) { w.start <= w.end <= |text| }

  function Slice(text: string, w: Span): string
    requires Within(w, text)
  {
    text[w.start..w.end]
  }

  /** A non-empty span that neither starts nor ends with white space. */
  predicate Solid(text: string, t: Span) {
    t.start < t.end <= |text| && !IsSpace(text[t.start]) && !IsSpace(text[t.end - 1])
  }

  /** The part of a span that remains when its slice is stripped. */
  function Trim(text: string, w: Span): (t: Span)
    requires Within(w, text)
    ensures w.start <= t.start <= t.end <= w.end
    ensures t.start < t.end ==> Solid(text, t)
    ensures forall p :: w.start <= p < w.end && !IsSpace(text[p]) ==> t.start <= p < t.end
  {
    var a := FirstNonSpace(text, w.start, w.end);
    Span(a, LastNonSpace(text, a, w.end))
  }

  lemma StripSlice(text: string, a: nat, b: nat, i: nat, j: nat)
    requires a <= i <= j <= b <= |text|
    requires (forall p :: a <= p < i ==> IsSpace(text[p])) && (forall p :: j <= p < b ==> IsSpace(text[p]))
    requires if i < j then !IsSpace(text[i]) && !IsSpace(text[j - 1]) else i == b
    ensures Strip(text[a..b]) == text[i..j]
  {
    hide IsSpace, Strip;
    var s := text[a..b];
    assert forall p :: 0 <= p < |s| ==> s[p] == text[a + p];
    StripUnique(s, i - a, j - a);
  }

  lemma TrimIsStrip(text: string, w: Span)
    requires Within(w, text)
    ensures Strip(Slice(text, w)) == Slice(text, Trim(text, w))
    ensures Strip(Slice(text, w)) == [] <==> Trim(text, w).start == Trim(text, w).end
  {
    hide IsSpace, Strip;
    var t := Trim(text, w);
    StripSlice(text, w.start, w.end, t.start, t.end);
  }

  /** The non-blank spans, trimmed. */
  function TrimAll(text: string, ws: seq<Span>): (ts: seq<Span>)
    requires forall w :: w in ws ==> Within(w, text)
    ensures forall t :: t in ts ==> Solid(text, t)
  {
    if ws == [] then []
    else
      var rest, t := TrimAll(text, ws[..|ws| - 1]), Trim(text, ws[|ws| - 1]);
      if t.start < t.end then rest + [t] else rest
  }

  predicate AllWithin(spans: seq<Span>, text: string) { forall w :: w in spans ==> Within(w, text) }

  function Slices(text: string, spans: seq<Span>): (r: seq<string>)
    requires AllWithin(spans, text)
    ensures |r| == |spans| && forall i :: 0 <= i < |r| ==> r[i] == Slice(text, spans[i])
  {
    if spans == [] then [] else Slices(text, spans[..|spans| - 1]) + [Slice(text, spans[|spans| - 1])]
  }

  predicate Contains(w: Span, p: nat) { w.start <= p < w.end }

  /** Every position of [from, to) that does not hold white space is in one of the spans. */
  ghost predicate Keeps(text: string, spans: seq<Span>, from: nat, to: nat) {
    forall p :: from <= p < to <= |text| && !IsSpace(text[p]) ==> exists w :: w in spans && Contains(w, p)
  }

  lemma {:induction false} TrimAllMember(text: string, ws: seq<Span>, w: Span, p: nat)
    requires AllWithin(ws, text) && w in ws && Contains(w, p) && !IsSpace(text[p])
    ensures exists t :: t in TrimAll(text, ws) && Contains(t, p)
  {
    var last := ws[|ws| - 1];
    if w == last {
      assert Trim(text, last) in TrimAll(text, ws);
    } else {
      TrimAllMember(text, ws[..|ws| - 1], w, p);
      var t :| t in TrimAll(text, ws[..|ws| - 1]) && Contains(t, p);
      assert t in TrimAll(text, ws);
    }
  }

  /** The sizes advance on every text, or this one is not split at all. */
  predicate Splittable(text: string, maxChars: nat, overlap: nat) {
    Advancing(maxChars, overlap) || |text| <= maxChars || Strip(text) == []
  }

  /** The chunks of a text split by size: nothing for a blank text, one chunk for a short one, otherwise the
      windows, each stripped. */
  function SizeSpans(text: string, maxChars: nat, overlap: nat): (spans: seq<Span>)
    requires Splittable(text, maxChars, overlap)
    ensures AllWithin(spans, text)
    ensures forall w :: w in spans ==> w.end - w.start <= maxChars
  {
    if Strip(text) == [] then []
    else if |text| <= maxChars then [Trim(text, Span(0, |text|))]
    else
      WindowsTile(text, 0, maxChars, overlap);
      WindowsFit(text, maxChars, overlap);
      TrimAll(text, Windows(text, 0, maxChars, overlap))
  }

  lemma WindowsFit(text: string, maxChars: nat, overlap: nat)
    requires Advancing(maxChars, overlap) && text != []
    ensures var ws := Windows(text, 0, maxChars, overlap);
      && (forall w :: w in ws ==> Within(w, text))
      && forall t :: t in TrimAll(text, ws) ==> t.end - t.start <= maxChars
  {
    var ws := Windows(text, 0, maxChars, overlap);
    WindowsTile(text, 0, maxChars, overlap);
    TrimAllShrinks(text, ws, maxChars);
  }

  lemma {:induction false} TrimAllShrinks(text: string, ws: seq<Span>, maxChars: nat)
    requires forall w :: w in ws ==> Within(w, text) && w.end - w.start <= maxChars
    ensures forall t :: t in TrimAll(text, ws) ==> t.end - t.start <= maxChars
  {
    if ws != [] {
      TrimAllShrinks(text, ws[..|ws| - 1], maxChars);
      assert ws[|ws| - 1] in ws;
    }
  }

  /** No character other than white space is lost by the size splitter. */
  lemma SizeSpansKeep(text: string, maxChars: nat, overlap: nat)
    requires Splittable(text, maxChars, overlap)
    ensures Keeps(text, SizeSpans(text, maxChars, overlap), 0, |text|)
  {
    var spans := SizeSpans(text, maxChars, overlap);
    StripEmptyIffBlank(text);
    forall p: nat | p < |text| && !IsSpace(text[p]) ensures exists w :: w in spans && Contains(w, p) {
      if |text| <= maxChars {
        var t := Trim(text, Span(0, |text|));
        assert Slice(text, Span(0, |text|)) == text;
        assert Contains(t, p) && t in [t];
      } else {
        var ws := Windows(text, 0, maxChars, overlap);
        WindowsTile(text, 0, maxChars, overlap);
        WindowsFit(text, maxChars, overlap);
        var i := TilingCovers(text, 0, ws, maxChars, overlap, p, 0);
        TrimAllMember(text, ws, ws[i], p);
      }
    }
  }

  lemma OneMoreSlice(text: string, spans: seq<Span>, t: Span)
    requires AllWithin(spans, text) && Within(t, text)
    ensures AllWithin(spans + [t], text) && Slices(text, spans + [t]) == Slices(text, spans) + [Slice(text, t)]
  {
    hide Slice;
    assert (spans + [t])[..|spans|] == spans;
  }

  lemma TrimAllSnoc(text: string, done: seq<Span>, w: Span)
    requires AllWithin(done, text) && Within(w, text)
    ensures AllWithin(done + [w], text)
    ensures var t := Trim(text, w);
      TrimAll(text, done + [w]) == if t.start < t.end then TrimAll(text, done) + [t] else TrimAll(text, done)
  {
    hide Trim;
    assert (done + [w])[..|done|] == done;
  }

  /** One more window adds its stripped slice, unless that is empty. */
  lemma SlicesSnoc(text: string, done: seq<Span>, w: Span)
    requires AllWithin(done, text) && Within(w, text)
    ensures AllWithin(done + [w], text)
    ensures var chunks, chunk := Slices(text, TrimAll(text, done)), Strip(Slice(text, w));
      Slices(text, TrimAll(text, done + [w])) == if chunk == [] then chunks else chunks + [chunk]
  {
    hide Strip, Trim, TrimAll, Slices, IsSpace;
    TrimIsStrip(text, w);
    TrimAllSnoc(text, done, w);
    TrimWithin(text, w);
    OneMoreSlice(text, TrimAll(text, done), Trim(text, w));
  }

  lemma TrimWithin(text: string, w: Span)
    requires Within(w, text)
    ensures Within(Trim(text, w), text)
    ensures Trim(text, w).start < Trim(text, w).end <==> Slice(text, Trim(text, w)) != []
  {
  }

  method FindBreakpoint(text: string, from: nat, end: nat) returns (found: int)
    requires from <= end <= |text|
    ensures found == Breakpoint(text, from, end)
  {
    found := RFind(text, "\n\n", from, end);
    if found == -1 {
      found := RFind(text, "\n", from, end);
    }
    if found == -1 {
      found := RFind(text, ". ", from, end);
    }
  }

  method FindWindowEnd(text: string, start: nat, maxChars: nat, overlap: nat) returns (end: nat)
    requires start < |text|
    ensures end == WindowEnd(text, start, maxChars, overlap)
  {
    hide Breakpoint;
    end := Min(start + maxChars, |text|);
    if end < |text| {
      var from := if end - overlap < start then start else end - overlap;
      var found := FindBreakpoint(text, from, end);
      if found > start {
        end := found + 1;
      }
    }
  }

  lemma WindowsStep(text: string, start: nat, maxChars: nat, overlap: nat, done: seq<Span>, ws: seq<Span>)
    requires start < |text| && Advancing(maxChars, overlap)
    requires done + Windows(text, start, maxChars, overlap) == ws
    ensures NextStart(text, start, maxChars, overlap) > start
    ensures done + [Span(start, WindowEnd(text, start, maxChars, overlap))]
            + Windows(text, NextStart(text, start, maxChars, overlap), maxChars, overlap) == ws
  {
    StepAdvances(text, start, maxChars, overlap);
    hide WindowEnd;
  }

  /** The size splitter; that the loop ends is `StepAdvances`. */
  method ChunkBySize(text: string, maxChars: nat, overlap: nat) returns (chunks: seq<string>)
    requires Splittable(text, maxChars, overlap)
    ensures chunks == Slices(text, SizeSpans(text, maxChars, overlap))
  {
    hide WindowEnd, Windows, Trim, Tiling, Slices, Strip, TrimAll, Min, IsSpace;
    NoSlices(text);
    if Strip(text) == [] {
      return [];
    }
    if |text| <= maxChars {
      chunks := [Strip(text)];
      WholeText(text);
      return;
    }
    chunks := [];
    var start := 0;
    ghost var ws := Windows(text, 0, maxChars, overlap);
    ghost var done: seq<Span> := [];
    WindowsFit(text, maxChars, overlap);
    while start < |text|
      invariant start <= |text| && done + Windows(text, start, maxChars, overlap) == ws
      invariant AllWithin(done, text) && chunks == Slices(text, TrimAll(text, done))
      decreases |text| - start
    {
      var end := FindWindowEnd(text, start, maxChars, overlap);
      ghost var w := Span(start, end);
      SlicesSnoc(text, done, w);
      WindowsStep(text, start, maxChars, overlap, done, ws);
      var chunk := Strip(text[start..end]);
      if chunk != [] {
        chunks := chunks + [chunk];
      }
      done := done + [w];
      start := if end < |text| then end - overlap else end;
    }
    WindowsAtEnd(text, maxChars, overlap, done);
  }

  lemma NoSlices(text: string)
    ensures Slices(text, []) == [] && Slices(text, TrimAll(text, [])) == []
  {
  }

  lemma WindowsAtEnd(text: string, maxChars: nat, overlap: nat, done: seq<Span>)
    requires Advancing(maxChars, overlap)
    ensures done + Windows(text, |text|, maxChars, overlap) == done
  {
  }

  lemma {:induction false} WholeText(text: string)
    ensures AllWithin([Trim(text, Span(0, |text|))], text)
    ensures Slices(text, [Trim(text, Span(0, |text|))]) == [Strip(text)]
  {
    hide Strip, Trim, IsSpace;
    var w := Span(0, |text|);
    TrimIsStrip(text, w);
    assert Slice(text, w) == text;
    assert [Trim(text, w)][..0] == [];
  }
}

/** What splitting by size yields, window by window. */
module SizeSplit {
  import opened Common
  import opened Text
  import opened Chunking

  /** Where a window of a longer text ends: behind the last paragraph break in its last `overlap` characters; without
      one behind the last line break there; without that behind the last sentence end; and otherwise at its full
      size. */
  ghost predicate EndsBehindBreak(text: string, start: nat, maxChars: nat, overlap: nat, end: nat) {
    var full, from := start + maxChars, if maxChars < overlap then start else start + maxChars - overlap;
    || LastIn(text, "\n\n", from, full, end - 1)
    || (NoneIn(text, "\n\n", from, full) && LastIn(text, "\n", from, full, end - 1))
    || (NoneIn(text, "\n\n", from, full) && NoneIn(text, "\n", from, full)
        && LastIn(text, ". ", from, full, end - 1))
    || (NoneIn(text, "\n\n", from, full) && NoneIn(text, "\n", from, full) && NoneIn(text, ". ", from, full)
        && end == full)
  }

  /** The windows tile the text, and each one that could be longer ends behind a break. */
  ghost predicate Cuts(text: string, ws: seq<Span>, maxChars: nat, overlap: nat) {
    && Tiling(text, 0, ws, maxChars, overlap)
    && forall i :: 0 <= i < |ws| ==>
         if ws[i].start + maxChars < |text| then EndsBehindBreak(text, ws[i].start, maxChars, overlap, ws[i].end)
         else ws[i].end == |text|
  }

  /** The parts of a text, stripped, without the blank ones. */
  function Parts(text: string, ws: seq<Span>): seq<string>
    requires AllWithin(ws, text)
  {
    if ws == [] then []
    else
      var init, w := ws[..|ws| - 1], ws[|ws| - 1];
      assert w in ws;
      var rest, part := Parts(text, init), Strip(Slice(text, w));
      if part == "" then rest else rest + [part]
  }

  lemma {:induction false} WindowsAt(text: string, start: nat, maxChars: nat, overlap: nat, i: nat)
    requires start <= |text| && Advancing(maxChars, overlap) && i < |Windows(text, start, maxChars, overlap)|
    ensures var w := Windows(text, start, maxChars, overlap)[i];
      w.start < |text| && w.end == WindowEnd(text, w.start, maxChars, overlap)
    decreases |text| - start
  {
    hide WindowEnd;
    if start < |text| && i > 0 {
      StepAdvances(text, start, maxChars, overlap);
      WindowsAt(text, NextStart(text, start, maxChars, overlap), maxChars, overlap, i - 1);
    }
  }

  lemma WindowEndIs(text: string, start: nat, maxChars: nat, overlap: nat)
    requires start < |text| && Advancing(maxChars, overlap)
    ensures var end := WindowEnd(text, start, maxChars, overlap);
      if start + maxChars < |text| then EndsBehindBreak(text, start, maxChars, overlap, end) else end == |text|
  {
    if start + maxChars < |text| {
      WindowEndsBehindBreak(text, start, maxChars, overlap);
      hide WindowEnd, LastIn, NoneIn;
    }
  }

  lemma {:induction false} PartsAre(text: string, ws: seq<Span>)
    requires AllWithin(ws, text)
    ensures Slices(text, TrimAll(text, ws)) == Parts(text, ws)
  {
    hide Strip, TrimAll, Slices;
    if ws == [] {
      NoSlices(text);
    } else {
      var init, w := ws[..|ws| - 1], ws[|ws| - 1];
      assert ws == init + [w];
      PartsAre(text, init);
      SlicesSnoc(text, init, w);
    }
  }

  /** A text that is longer than a window is cut into windows that share exactly the overlap and end behind breaks; its
      chunks are these windows, stripped, without the blank ones. */
  lemma LongTextIsCut(text: string, maxChars: nat, overlap: nat) returns (ws: seq<Span>)
    requires Advancing(maxChars, overlap) && |text| > maxChars && Strip(text) != ""
    ensures Cuts(text, ws, maxChars, overlap) && AllWithin(ws, text)
    ensures Slices(text, SizeSpans(text, maxChars, overlap)) == Parts(text, ws)
  {
    hide Strip, TrimAll, Slices, Windows, WindowEnd, EndsBehindBreak, Parts;
    ws := Windows(text, 0, maxChars, overlap);
    WindowsTile(text, 0, maxChars, overlap);
    WindowsFit(text, maxChars, overlap);
    forall i | 0 <= i < |ws|
      ensures if ws[i].start + maxChars < |text| then EndsBehindBreak(text, ws[i].start, maxChars, overlap, ws[i].end)
              else ws[i].end == |text|
    {
      WindowsAt(text, 0, maxChars, overlap, i);
      WindowEndIs(text, ws[i].start, maxChars, overlap);
    }
    PartsAre(text, ws);
  }

  /** A text that fits into one window is one chunk, stripped; a blank text is none. */
  lemma ShortTextIsOneChunk(text: string, maxChars: nat, overlap: nat)
    requires |text| <= maxChars || Strip(text) == ""
    ensures Slices(text, SizeSpans(text, maxChars, overlap)) == if Strip(text) == "" then [] else [Strip(text)]
  {
    hide Strip, Trim, Slices;
    WholeText(text);
    NoSlices(text);
  }

  /** There is only one way to cut a text like this. */
  lemma {:induction false} CutsAreUnique(text: string, a: seq<Span>, b: seq<Span>, maxChars: nat, overlap: nat, i: nat)
    requires Cuts(text, a, maxChars, overlap) && Cuts(text, b, maxChars, overlap) && i < |a|
    ensures i < |b| && a[i] == b[i] && (i == |a| - 1 <==> i == |b| - 1)
  {
    hide EndsBehindBreak;
    if i > 0 {
      CutsAreUnique(text, a, b, maxChars, overlap, i - 1);
    }
    if a[i].start + maxChars < |text| {
      BreakIsUnique(text, a[i].start, maxChars, overlap, a[i].end, b[i].end);
    }
  }

  lemma BreakIsUnique(text: string, start: nat, maxChars: nat, overlap: nat, a: nat, b: nat)
    requires EndsBehindBreak(text, start, maxChars, overlap, a) && EndsBehindBreak(text, start, maxChars, overlap, b)
    ensures a == b
  {
    hide OccursAt;
  }
}

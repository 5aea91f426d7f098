/** Normalization of document text, the basis of every content digest. */
module Normalization {
  import opened Text

  const MAX_BLANK_RUN := 2

  /** A line boundary of `str.splitlines`. */
  predicate IsBreak(c: char) {
    var n := c as int;
    0x0A <= n <= 0x0D || 0x1C <= n <= 0x1E || n == 0x85 || n == 0x2028 || n == 0x2029
  }

  /** Text within one line. */
  predicate Plain(s: string) { forall i :: 0 <= i < |s| ==> !IsBreak(s[i]) }

  function FirstBreak(s: string): (n: nat)
    ensures n <= |s| && (n < |s| ==> IsBreak(s[n]))
    ensures forall i :: 0 <= i < n ==> !IsBreak(s[i])
  {
    if s == [] || IsBreak(s[0]) then 0 else 1 + FirstBreak(s[1..])
  }

  /** `splitlines()`: a carriage return followed by a line feed is one boundary; no empty last line. */
  function SplitLines(s: string): (lines: seq<string>)
    ensures forall l :: l in lines ==> Plain(l)
    decreases |s|
  {
    if s == [] then []
    else
      var n := FirstBreak(s);
      if n == |s| then [s]
      else
        var next := if s[n] == '\r' && n + 1 < |s| && s[n + 1] == '\n' then n + 2 else n + 1;
        [s[..n]] + SplitLines(s[next..])
  }

  function FirstLineFeed(s: string): (n: nat)
    ensures n <= |s| && (n < |s| ==> s[n] == '\n')
    ensures forall i :: 0 <= i < n ==> s[i] != '\n'
  {
    if s == [] || s[0] == '\n' then 0 else 1 + FirstLineFeed(s[1..])
  }

  /** `split("\n")` */
  function SplitLineFeeds(s: string): (lines: seq<string>)
    decreases |s|
  {
    var n := FirstLineFeed(s);
    if n == |s| then [s] else [s[..n]] + SplitLineFeeds(s[n + 1..])
  }

  /** `"\n".join(lines)` */
  function JoinLines(lines: seq<string>): string {
    if lines == [] then []
    else if |lines| == 1 then lines[0]
    else lines[0] + "\n" + JoinLines(lines[1..])
  }

  function TrimLines(lines: seq<string>): (r: seq<string>)
    ensures |r| == |lines| && forall i :: 0 <= i < |r| ==> r[i] == RightTrim(lines[i])
  {
    if lines == [] then [] else [RightTrim(lines[0])] + TrimLines(lines[1..])
  }

  predicate Empty(line: string) { |line| == 0 }

  function DropTrailing(lines: seq<string>): (r: seq<string>)
    ensures |r| <= |lines| && r == lines[..|r|]
    ensures r == [] || !Empty(r[|r| - 1])
  {
    if lines != [] && Empty(lines[|lines| - 1]) then DropTrailing(lines[..|lines| - 1]) else lines
  }

  function DropLeading(lines: seq<string>): (r: seq<string>)
    ensures |r| <= |lines| && r == lines[|lines| - |r|..]
    ensures r == [] || !Empty(r[0])
    ensures lines != [] && !Empty(lines[|lines| - 1]) ==> r != []
  {
    if lines != [] && Empty(lines[0]) then DropLeading(lines[1..]) else lines
  }

  /** How many empty lines there are at the end. */
  function BlankRun(lines: seq<string>): (n: nat)
    ensures n <= |lines| && (n < |lines| ==> !Empty(lines[|lines| - n - 1]))
    ensures forall i :: |lines| - n <= i < |lines| ==> Empty(lines[i])
  {
    if lines != [] && Empty(lines[|lines| - 1]) then 1 + BlankRun(lines[..|lines| - 1]) else 0
  }

  /** Every run of empty lines cut down to its first two. */
  function Squeeze(lines: seq<string>): (r: seq<string>) {
    if lines == [] then []
    else
      var rest, last := Squeeze(lines[..|lines| - 1]), lines[|lines| - 1];
      if BlankRun(lines) > MAX_BLANK_RUN then rest else rest + [last]
  }

  function CollapseLines(lines: seq<string>): seq<string> { DropLeading(Squeeze(DropTrailing(lines))) }

  function CollapseText(s: string): string { JoinLines(CollapseLines(TrimLines(SplitLineFeeds(s)))) }

  function Normalize(s: string): string { CollapseText(JoinLines(TrimLines(SplitLines(s)))) }

  // ---------------------------------------------------------------------------------------------
  // Splitting undoes joining
  // ---------------------------------------------------------------------------------------------

  lemma JoinLinesCons(l: string, lines: seq<string>)
    requires lines != []
    ensures JoinLines([l] + lines) == l + ("\n" + JoinLines(lines))
  {
    assert ([l] + lines)[1..] == lines;
  }

  lemma FirstLineFeedAt(s: string, n: nat)
    requires n < |s| && s[n] == '\n' && forall i :: 0 <= i < n ==> s[i] != '\n'
    ensures FirstLineFeed(s) == n
  {
    hide FirstLineFeed;
  }

  lemma {:induction false} SplitLineFeedsCons(l: string, rest: string)
    requires forall i :: 0 <= i < |l| ==> l[i] != '\n'
    ensures SplitLineFeeds(l + ("\n" + rest)) == [l] + SplitLineFeeds(rest)
  {
    var s := l + ("\n" + rest);
    FirstLineFeedAt(s, |l|);
    assert s[..|l|] == l && s[|l| + 1..] == rest;
    hide FirstLineFeed;
  }

  lemma {:induction false} SplitLineFeedsOfJoin(lines: seq<string>)
    requires lines != [] && forall l :: l in lines ==> Plain(l)
    ensures SplitLineFeeds(JoinLines(lines)) == lines
  {
    assert IsBreak('\n') && Plain(lines[0]);
    if |lines| > 1 {
      hide IsBreak, SplitLineFeeds, JoinLines;
      assert lines == [lines[0]] + lines[1..];
      SplitLineFeedsOfJoin(lines[1..]);
      JoinLinesCons(lines[0], lines[1..]);
      SplitLineFeedsCons(lines[0], JoinLines(lines[1..]));
    }
  }

  lemma FirstBreakAt(s: string, n: nat)
    requires n < |s| && s[n] == '\n' && Plain(s[..n])
    ensures FirstBreak(s) == n
  {
    assert IsBreak('\n') && forall i :: 0 <= i < n ==> s[..n][i] == s[i];
    hide FirstBreak, IsBreak;
  }

  lemma SplitLinesCons(l: string, rest: string)
    requires Plain(l)
    ensures SplitLines(l + ("\n" + rest)) == [l] + SplitLines(rest)
  {
    hide Plain, FirstBreak, IsBreak;
    var s := l + ("\n" + rest);
    assert s[..|l|] == l && s[|l| + 1..] == rest;
    FirstBreakAt(s, |l|);
  }

  lemma {:induction false} SplitLinesOfJoin(lines: seq<string>)
    requires forall l :: l in lines ==> Plain(l)
    requires lines != [] ==> !Empty(lines[|lines| - 1])
    ensures SplitLines(JoinLines(lines)) == lines
  {
    if lines != [] {
      assert Plain(lines[0]);
      if |lines| > 1 {
        hide IsBreak, SplitLines, JoinLines, Plain;
        assert lines == [lines[0]] + lines[1..];
        SplitLinesOfJoin(lines[1..]);
        JoinLinesCons(lines[0], lines[1..]);
        SplitLinesCons(lines[0], JoinLines(lines[1..]));
      }
    }
  }

  // ---------------------------------------------------------------------------------------------
  // The normal form
  // ---------------------------------------------------------------------------------------------

  /** Lines without trailing white space, no blank line at either end, and at most two blank lines in a row. */
  ghost predicate Normal(lines: seq<string>) {
    && Clean(lines)
    && (lines != [] ==> !Empty(lines[0]) && !Empty(lines[|lines| - 1]))
    && ShortRuns(lines)
  }

  ghost predicate ShortRuns(lines: seq<string>) {
    forall i :: 0 <= i < |lines| - 2 ==> !(Empty(lines[i]) && Empty(lines[i + 1]) && Empty(lines[i + 2]))
  }

  lemma {:induction false} SqueezeMembers(lines: seq<string>)
    ensures forall l :: l in Squeeze(lines) ==> l in lines
  {
    if lines != [] {
      SqueezeMembers(lines[..|lines| - 1]);
    }
  }

  lemma RunsSnoc(lines: seq<string>, last: string)
    requires ShortRuns(lines) && (Empty(last) ==> BlankRun(lines) < MAX_BLANK_RUN)
    ensures ShortRuns(lines + [last])
  {
    hide Empty;
  }

  lemma BlankRunSnoc(lines: seq<string>, last: string)
    ensures BlankRun(lines + [last]) == if Empty(last) then BlankRun(lines) + 1 else 0
  {
    assert (lines + [last])[..|lines|] == lines;
    hide Empty;
  }

  lemma SqueezeSnoc(lines: seq<string>, last: string)
    ensures Squeeze(lines + [last])
         == if BlankRun(lines + [last]) > MAX_BLANK_RUN then Squeeze(lines) else Squeeze(lines) + [last]
  {
    assert (lines + [last])[..|lines|] == lines;
    hide Empty, BlankRun;
  }

  lemma {:induction false} SqueezeRuns(lines: seq<string>)
    ensures ShortRuns(Squeeze(lines))
    ensures BlankRun(Squeeze(lines)) == if BlankRun(lines) < MAX_BLANK_RUN then BlankRun(lines) else MAX_BLANK_RUN
  {
    if lines != [] {
      hide *;
      var init, last := lines[..|lines| - 1], lines[|lines| - 1];
      assert lines == init + [last];
      SqueezeRuns(init);
      BlankRunSnoc(init, last);
      SqueezeSnoc(init, last);
      if BlankRun(lines) <= MAX_BLANK_RUN {
        var out := Squeeze(init);
        BlankRunSnoc(out, last);
        RunsSnoc(out, last);
      }
    }
  }

  lemma {:induction false} ShortRunsOfSlice(lines: seq<string>, k: nat)
    requires ShortRuns(lines) && k <= |lines|
    ensures ShortRuns(lines[k..]) && ShortRuns(lines[..k])
  {
    var a, b := lines[k..], lines[..k];
    assert forall i :: 0 <= i < |a| ==> a[i] == lines[k + i];
  }

  ghost predicate Clean(lines: seq<string>) {
    forall l :: l in lines ==> Plain(l) && RightTrim(l) == l
  }

  lemma CollapseIsNormal(lines: seq<string>)
    requires Clean(lines)
    ensures Normal(CollapseLines(lines))
  {
    hide Plain, RightTrim, BlankRun, ShortRuns, Empty, Squeeze;
    var kept := DropTrailing(lines);
    var squeezed := Squeeze(kept);
    SqueezeMembers(kept);
    SqueezeRuns(kept);
    SqueezeLast(kept);
    DropLeadingIsNormal(squeezed);
  }

  lemma SqueezeLast(lines: seq<string>)
    requires lines == [] || !Empty(lines[|lines| - 1])
    ensures var r := Squeeze(lines); r == [] || !Empty(r[|r| - 1])
  {
    if lines != [] {
      hide Empty, Squeeze;
      var init, last := lines[..|lines| - 1], lines[|lines| - 1];
      assert lines == init + [last];
      SqueezeSnoc(init, last);
    }
  }

  lemma {:induction false} DropLeadingIsNormal(lines: seq<string>)
    requires Clean(lines) && ShortRuns(lines) && (lines == [] || !Empty(lines[|lines| - 1]))
    ensures Normal(DropLeading(lines))
  {
    hide ShortRuns, Empty, Clean;
    if lines != [] && Empty(lines[0]) {
      ShortRunsOfSlice(lines, 1);
      CleanOfSlice(lines, 1);
      DropLeadingIsNormal(lines[1..]);
    }
  }

  lemma CleanOfSlice(lines: seq<string>, k: nat)
    requires Clean(lines) && k <= |lines|
    ensures Clean(lines[k..])
  {
    hide Plain, RightTrim;
  }

  lemma {:induction false} SqueezeOfShortRuns(lines: seq<string>)
    requires ShortRuns(lines)
    ensures Squeeze(lines) == lines
  {
    if lines != [] {
      hide *;
      var init, last := lines[..|lines| - 1], lines[|lines| - 1];
      assert lines == init + [last];
      ShortRunsOfSlice(lines, |init|);
      SqueezeOfShortRuns(init);
      ShortRunsBound(lines);
      SqueezeSnoc(init, last);
    }
  }

  lemma ShortRunsBound(lines: seq<string>)
    ensures BlankRun(lines) > MAX_BLANK_RUN ==> !ShortRuns(lines)
  {
    hide Empty;
    if BlankRun(lines) > MAX_BLANK_RUN {
      var k := |lines| - 3;
      assert Empty(lines[k]) && Empty(lines[k + 1]) && Empty(lines[k + 2]);
    }
  }

  lemma {:induction false} TrimLinesOfClean(lines: seq<string>)
    requires Clean(lines)
    ensures TrimLines(lines) == lines
  {
    hide RightTrim, Plain, TrimLines;
    forall i | 0 <= i < |lines| ensures TrimLines(lines)[i] == lines[i] {
      assert lines[i] in lines;
    }
  }

  lemma TrimLinesClean(lines: seq<string>)
    requires forall l :: l in lines ==> Plain(l)
    ensures Clean(TrimLines(lines))
  {
    hide TrimLines;
    var r := TrimLines(lines);
    forall l | l in r ensures Plain(l) && RightTrim(l) == l {
      var i :| 0 <= i < |r| && r[i] == l;
      assert lines[i] in lines;
    }
  }

  /** Normalizing is: cut into lines, trim them, collapse the blank ones, and join them again. */
  lemma NormalizeIs(s: string)
    ensures Normalize(s) == JoinLines(CollapseLines(TrimLines(SplitLines(s))))
  {
    var lines := TrimLines(SplitLines(s));
    TrimLinesClean(SplitLines(s));
    if lines == [] {
      assert TrimLines(SplitLineFeeds("")) == [""];
      assert DropTrailing([""]) == [];
    } else {
      hide SplitLines, TrimLines, SplitLineFeeds, JoinLines;
      SplitLineFeedsOfJoin(lines);
      TrimLinesOfClean(lines);
    }
  }

  /** What normalization yields is in normal form, and a text in normal form is left as it is. */
  lemma NormalizeYieldsNormal(s: string) returns (lines: seq<string>)
    ensures Normal(lines) && Normalize(s) == JoinLines(lines)
  {
    lines := CollapseLines(TrimLines(SplitLines(s)));
    TrimLinesClean(SplitLines(s));
    CollapseIsNormal(TrimLines(SplitLines(s)));
    NormalizeIs(s);
  }

  lemma NormalIsClean(lines: seq<string>)
    requires Normal(lines)
    ensures Clean(lines) && CollapseLines(lines) == lines
  {
    hide Plain, RightTrim, ShortRuns, Empty, Squeeze;
    SqueezeOfShortRuns(lines);
  }

  lemma NormalIsFixed(lines: seq<string>)
    requires Normal(lines)
    ensures Normalize(JoinLines(lines)) == JoinLines(lines)
  {
    hide Plain, RightTrim, ShortRuns, Empty, Squeeze, SplitLines, JoinLines, Normalize, CollapseLines, TrimLines;
    NormalIsClean(lines);
    NormalizeIs(JoinLines(lines));
    SplitLinesOfJoin(lines);
    TrimLinesOfClean(lines);
  }

  /** A digest of normalized text is the digest of the text. */
  lemma NormalizeIdempotent(s: string)
    ensures Normalize(Normalize(s)) == Normalize(s)
  {
    hide *;
    var lines := NormalizeYieldsNormal(s);
    NormalIsFixed(lines);
  }

  // ---------------------------------------------------------------------------------------------
  // Nothing but blank lines goes
  // ---------------------------------------------------------------------------------------------

  /** The lines that are not empty, in order. */
  function Filled(lines: seq<string>): seq<string> {
    if lines == [] then []
    else
      var rest, last := Filled(lines[..|lines| - 1]), lines[|lines| - 1];
      if Empty(last) then rest else rest + [last]
  }

  lemma FilledSnoc(lines: seq<string>, last: string)
    ensures Filled(lines + [last]) == if Empty(last) then Filled(lines) else Filled(lines) + [last]
  {
    assert (lines + [last])[..|lines|] == lines;
    hide Empty;
  }

  lemma {:induction false} FilledCons(first: string, lines: seq<string>)
    requires Empty(first)
    ensures Filled([first] + lines) == Filled(lines)
  {
    if lines == [] {
      assert [first] + lines == [] + [first];
      FilledSnoc([], first);
    } else {
      hide *;
      var init, last := lines[..|lines| - 1], lines[|lines| - 1];
      assert lines == init + [last] && [first] + lines == [first] + init + [last];
      FilledCons(first, init);
      FilledSnoc(init, last);
      FilledSnoc([first] + init, last);
    }
  }

  lemma {:induction false} SqueezeKeepsFilled(lines: seq<string>)
    ensures Filled(Squeeze(lines)) == Filled(lines)
  {
    if lines != [] {
      hide *;
      var init, last := lines[..|lines| - 1], lines[|lines| - 1];
      assert lines == init + [last];
      SqueezeKeepsFilled(init);
      SqueezeSnoc(init, last);
      BlankRunSnoc(init, last);
      FilledSnoc(init, last);
      FilledSnoc(Squeeze(init), last);
    }
  }

  lemma {:induction false} DropTrailingKeepsFilled(lines: seq<string>)
    ensures Filled(DropTrailing(lines)) == Filled(lines)
  {
    if lines != [] && Empty(lines[|lines| - 1]) {
      var init := lines[..|lines| - 1];
      DropTrailingKeepsFilled(init);
      assert lines == init + [lines[|lines| - 1]];
      hide Empty, Filled;
      FilledSnoc(init, lines[|lines| - 1]);
    }
  }

  lemma {:induction false} DropLeadingKeepsFilled(lines: seq<string>)
    ensures Filled(DropLeading(lines)) == Filled(lines)
  {
    hide Empty, Filled;
    if lines != [] && Empty(lines[0]) {
      DropLeadingKeepsFilled(lines[1..]);
      assert lines == [lines[0]] + lines[1..];
      FilledCons(lines[0], lines[1..]);
    }
  }

  /** Normalizing keeps every line that is not blank, in order, without its trailing white space. */
  lemma NormalizeKeepsLines(s: string)
    ensures exists lines :: Normalize(s) == JoinLines(lines) && Filled(lines) == Filled(TrimLines(SplitLines(s)))
  {
    var lines := TrimLines(SplitLines(s));
    NormalizeIs(s);
    hide TrimLines, SplitLines, JoinLines, Normalize, Empty, Filled;
    DropTrailingKeepsFilled(lines);
    SqueezeKeepsFilled(DropTrailing(lines));
    DropLeadingKeepsFilled(Squeeze(DropTrailing(lines)));
    assert Filled(CollapseLines(lines)) == Filled(lines);
  }

  // ---------------------------------------------------------------------------------------------
  // The program
  // ---------------------------------------------------------------------------------------------

  lemma DropTrailingStep(lines: seq<string>)
    requires lines != [] && Empty(lines[|lines| - 1])
    ensures DropTrailing(lines) == DropTrailing(lines[..|lines| - 1])
  {
  }

  method CollapseBlankLines(s: string) returns (r: string)
    ensures r == CollapseText(s)
  {
    hide TrimLines, SplitLineFeeds, JoinLines, Squeeze, BlankRun;
    var lines := TrimLines(SplitLineFeeds(s));
    lines := PopTrailing(lines);
    var out := DropRuns(lines);
    out := PopLeading(out);
    r := JoinLines(out);
  }

  method PopTrailing(all: seq<string>) returns (lines: seq<string>)
    ensures lines == DropTrailing(all)
  {
    hide DropTrailing, Empty;
    lines := all;
    while lines != [] && Empty(lines[|lines| - 1])
      invariant DropTrailing(lines) == DropTrailing(all)
    {
      DropTrailingStep(lines);
      lines := lines[..|lines| - 1];
    }
    DropTrailingDone(lines);
  }

  lemma DropTrailingDone(lines: seq<string>)
    requires lines == [] || !Empty(lines[|lines| - 1])
    ensures DropTrailing(lines) == lines
  {
  }

  method DropRuns(lines: seq<string>) returns (out: seq<string>)
    ensures out == Squeeze(lines)
  {
    var blankRun := 0;
    out := [];
    assert lines[..0] == [];
    hide Squeeze, BlankRun, Empty;
    for i := 0 to |lines|
      invariant out == Squeeze(lines[..i]) && blankRun == BlankRun(lines[..i])
    {
      assert lines[..i + 1] == lines[..i] + [lines[i]];
      SqueezeSnoc(lines[..i], lines[i]);
      BlankRunSnoc(lines[..i], lines[i]);
      if Empty(lines[i]) {
        blankRun := blankRun + 1;
        if blankRun <= MAX_BLANK_RUN {
          out := out + [lines[i]];
        }
      } else {
        blankRun := 0;
        out := out + [lines[i]];
      }
    }
    assert lines[..|lines|] == lines;
  }

  method PopLeading(all: seq<string>) returns (out: seq<string>)
    ensures out == DropLeading(all)
  {
    hide Empty;
    out := all;
    while out != [] && Empty(out[0])
      invariant DropLeading(out) == DropLeading(all)
    {
      out := out[1..];
    }
  }
}

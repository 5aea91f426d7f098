/** What normalization does to the characters of a text: it keeps everything but white space, and stripping a text
    before it changes nothing but the white space in front. */
module NormalizedText {
  import opened Text
  import opened Normalization

  // ---------------------------------------------------------------------------------------------
  // The characters other than white space
  // ---------------------------------------------------------------------------------------------

  /** The characters other than white space, in order. */
  function Ink(s: string): string {
    if s == [] then []
    else if IsSpace(s[0]) then Ink(s[1..])
    else [s[0]] + Ink(s[1..])
  }

  function InkOfLines(lines: seq<string>): string {
    if lines == [] then [] else Ink(lines[0]) + InkOfLines(lines[1..])
  }

  lemma {:induction false} InkConcat(a: string, b: string)
    ensures Ink(a + b) == Ink(a) + Ink(b)
  {
    hide IsSpace;
    if a == [] {
      assert a + b == b;
    } else {
      assert (a + b)[0] == a[0] && (a + b)[1..] == a[1..] + b;
      InkConcat(a[1..], b);
    }
  }

  lemma {:induction false} InkOfBlank(s: string)
    ensures Ink(s) == [] <==> Blank(s)
  {
    hide IsSpace;
    if s != [] {
      InkOfBlank(s[1..]);
      assert s == [s[0]] + s[1..];
    }
  }

  /** A character of the text is at its place among the characters kept. */
  lemma InkAt(s: string, p: nat)
    requires p < |s| && !IsSpace(s[p])
    ensures |Ink(s[..p])| < |Ink(s)| && Ink(s)[|Ink(s[..p])|] == s[p]
  {
    hide IsSpace;
    var rest := s[p..];
    assert s == s[..p] + rest && rest[0] == s[p];
    assert Ink(rest) == [s[p]] + Ink(rest[1..]);
    hide Ink;
    InkConcat(s[..p], rest);
  }

  lemma InkOfRightTrim(s: string)
    ensures Ink(RightTrim(s)) == Ink(s)
  {
    hide RightTrim, IsSpace, Ink;
    var r := RightTrim(s);
    var tail := s[|r|..];
    assert s == r + tail;
    InkConcat(r, tail);
    InkOfBlank(tail);
  }

  lemma {:induction false} InkOfTrimLines(lines: seq<string>)
    ensures InkOfLines(TrimLines(lines)) == InkOfLines(lines)
  {
    if lines != [] {
      hide Ink, RightTrim;
      InkOfTrimLines(lines[1..]);
      InkOfRightTrim(lines[0]);
      assert TrimLines(lines)[1..] == TrimLines(lines[1..]);
    }
  }

  lemma {:induction false} InkOfLinesSnoc(lines: seq<string>, last: string)
    ensures InkOfLines(lines + [last]) == InkOfLines(lines) + Ink(last)
  {
    hide Ink;
    if lines == [] {
      assert lines + [last] == [last] && [last][1..] == [];
    } else {
      assert (lines + [last])[1..] == lines[1..] + [last];
      InkOfLinesSnoc(lines[1..], last);
    }
  }

  lemma {:induction false} InkOfFilled(lines: seq<string>)
    ensures InkOfLines(Filled(lines)) == InkOfLines(lines)
  {
    if lines != [] {
      hide InkOfLines;
      var init, last := lines[..|lines| - 1], lines[|lines| - 1];
      assert lines == init + [last];
      InkOfFilled(init);
      InkOfLinesSnoc(init, last);
      InkOfLinesSnoc(Filled(init), last);
    }
  }

  lemma {:induction false} InkOfJoinLines(lines: seq<string>)
    ensures Ink(JoinLines(lines)) == InkOfLines(lines)
  {
    if |lines| == 1 {
      assert InkOfLines(lines[1..]) == [];
    } else if |lines| > 1 {
      var rest := JoinLines(lines[1..]);
      InkOfJoinLines(lines[1..]);
      assert IsSpace('\n') && ("\n" + rest)[1..] == rest;
      assert Ink("\n" + rest) == Ink(rest);
      hide Ink, IsSpace;
      assert JoinLines(lines) == lines[0] + ("\n" + rest);
      InkConcat(lines[0], "\n" + rest);
    }
  }

  /** Where the line after the first one starts. */
  function NextLine(s: string): (n: nat)
    requires FirstBreak(s) < |s|
    ensures FirstBreak(s) < n <= |s|
  {
    var n := FirstBreak(s);
    if s[n] == '\r' && n + 1 < |s| && s[n + 1] == '\n' then n + 2 else n + 1
  }

  lemma SplitLinesStep(s: string)
    requires s != []
    ensures SplitLines(s) == if FirstBreak(s) == |s| then [s] else [s[..FirstBreak(s)]] + SplitLines(s[NextLine(s)..])
  {
  }

  lemma LineFeedIsSpace()
    ensures IsSpace('\n')
  {
  }

  lemma BreakIsSpace(c: char)
    ensures IsBreak(c) ==> IsSpace(c)
  {
  }

  lemma {:induction false} InkOfSplitLines(s: string)
    ensures InkOfLines(SplitLines(s)) == Ink(s)
    decreases |s|
  {
    hide FirstBreak, IsSpace, IsBreak, SplitLines;
    NoLines();
    if s != [] {
      var n := FirstBreak(s);
      SplitLinesStep(s);
      if n == |s| {
        assert InkOfLines([s]) == Ink(s) + InkOfLines([s][1..]);
      } else {
        var m := NextLine(s);
        InkOfSplitLines(s[m..]);
        var gap := s[n..m];
        BreakIsSpace(s[n]);
        LineFeedIsSpace();
        assert Blank(gap);
        InkOfBlank(gap);
        assert s == s[..n] + gap + s[m..];
        InkConcat(s[..n] + gap, s[m..]);
        InkConcat(s[..n], gap);
      }
    }
  }

  lemma NoLines()
    ensures SplitLines([]) == [] && InkOfLines([]) == [] && Ink([]) == []
  {
  }

  /** Normalization keeps every character other than white space, in order. */
  lemma NormalizeKeepsInk(s: string)
    ensures Ink(Normalize(s)) == Ink(s)
  {
    hide *;
    NormalizeKeepsLines(s);
    var trimmed := TrimLines(SplitLines(s));
    var lines :| Normalize(s) == JoinLines(lines) && Filled(lines) == Filled(trimmed);
    InkOfJoinLines(lines);
    InkOfFilled(lines);
    InkOfFilled(trimmed);
    InkOfTrimLines(SplitLines(s));
    InkOfSplitLines(s);
  }

  // ---------------------------------------------------------------------------------------------
  // White space at the end
  // ---------------------------------------------------------------------------------------------

  /** The lines of a text before blank runs are collapsed. */
  function TextLines(s: string): seq<string> { DropTrailing(TrimLines(SplitLines(s))) }

  lemma {:induction false} DropTrailingCons(first: string, lines: seq<string>)
    ensures var rest := DropTrailing(lines);
      DropTrailing([first] + lines) == if rest == [] && Empty(first) then [] else [first] + rest
  {
    hide Empty;
    var all := [first] + lines;
    if lines == [] {
      assert all == [first];
      assert [first][..0] == [];
    } else {
      assert all[|all| - 1] == lines[|lines| - 1];
      if Empty(lines[|lines| - 1]) {
        assert all[..|all| - 1] == [first] + lines[..|lines| - 1];
        DropTrailingCons(first, lines[..|lines| - 1]);
      }
    }
  }

  lemma TrimLinesCons(first: string, lines: seq<string>)
    ensures TrimLines([first] + lines) == [RightTrim(first)] + TrimLines(lines)
  {
    hide RightTrim;
    assert ([first] + lines)[1..] == lines;
  }

  lemma RightTrimSnoc(s: string, c: char)
    requires IsSpace(c)
    ensures RightTrim(s + [c]) == RightTrim(s)
  {
    hide IsSpace;
    assert (s + [c])[..|s|] == s;
  }

  lemma {:induction false} FirstBreakSnoc(s: string, c: char)
    ensures FirstBreak(s) < |s| ==> FirstBreak(s + [c]) == FirstBreak(s)
    ensures FirstBreak(s) == |s| ==> FirstBreak(s + [c]) == if IsBreak(c) then |s| else |s| + 1
  {
    hide FirstBreak, IsBreak;
    var t := s + [c];
    assert t[|s|] == c && forall i :: 0 <= i < |s| ==> t[i] == s[i];
    var m := FirstBreak(t);
    assert m < |s| ==> t[m] == s[m];
  }

  lemma OneLine(s: string)
    ensures SplitLines(s) == [s] ==> TextLines(s) == if RightTrim(s) == [] then [] else [RightTrim(s)]
  {
    hide RightTrim, SplitLines;
    assert [RightTrim(s)][..0] == [];
  }

  lemma {:induction false} TextLinesStep(s: string)
    requires FirstBreak(s) < |s|
    ensures var rest, first := TextLines(s[NextLine(s)..]), RightTrim(s[..FirstBreak(s)]);
      TextLines(s) == if rest == [] && Empty(first) then [] else [first] + rest
  {
    var first, rest := s[..FirstBreak(s)], SplitLines(s[NextLine(s)..]);
    SplitLinesStep(s);
    hide FirstBreak, NextLine, SplitLines, RightTrim, TrimLines, DropTrailing, Empty;
    TrimLinesCons(first, rest);
    DropTrailingCons(RightTrim(first), TrimLines(rest));
  }

  lemma {:induction false} NextLineSnoc(s: string, c: char)
    requires FirstBreak(s) < |s|
    ensures FirstBreak(s + [c]) == FirstBreak(s)
    ensures (s + [c])[..FirstBreak(s)] == s[..FirstBreak(s)]
    ensures var m := NextLine(s);
      || (NextLine(s + [c]) == m && (s + [c])[m..] == s[m..] + [c])
      || (NextLine(s + [c]) == m + 1 == |s + [c]| && s[m..] == (s + [c])[m + 1..] == [])
  {
    FirstBreakSnoc(s, c);
    hide FirstBreak;
    var t, n := s + [c], FirstBreak(s);
    assert t[n] == s[n] && (n + 1 < |s| ==> t[n + 1] == s[n + 1]) && t[|s|] == c;
  }

  lemma LastLineSnoc(s: string, c: char)
    requires FirstBreak(s) == |s| && IsSpace(c)
    ensures TextLines(s + [c]) == TextLines(s)
  {
    FirstBreakSnoc(s, c);
    var t := s + [c];
    RightTrimSnoc(s, c);
    SplitLinesStep(t);
    if s != [] {
      SplitLinesStep(s);
    }
    hide FirstBreak, RightTrim, SplitLines, IsSpace, IsBreak, TextLines;
    NoTextLines();
    if FirstBreak(t) == |s| {
      TextLinesStep(t);
      assert t[NextLine(t)..] == [] && t[..|s|] == s;
      LineWithoutBreak(s);
    } else {
      LineWithoutBreak(t);
      LineWithoutBreak(s);
    }
  }

  lemma NoTextLines()
    ensures TextLines([]) == [] && RightTrim([]) == []
  {
  }

  lemma LineWithoutBreak(s: string)
    requires FirstBreak(s) == |s|
    ensures TextLines(s) == if RightTrim(s) == [] then [] else [RightTrim(s)]
  {
    if s == [] {
      NoTextLines();
    } else {
      SplitLinesStep(s);
      OneLine(s);
    }
  }

  /** White space at the end of a text is not part of its lines. */
  lemma {:induction false} TextLinesSnoc(s: string, c: char)
    requires IsSpace(c)
    ensures TextLines(s + [c]) == TextLines(s)
    decreases |s|
  {
    hide *;
    if FirstBreak(s) == |s| {
      LastLineSnoc(s, c);
    } else {
      var t, m := s + [c], NextLine(s);
      NextLineSnoc(s, c);
      TextLinesStep(s);
      TextLinesStep(t);
      if NextLine(t) == m {
        TextLinesSnoc(s[m..], c);
      }
    }
  }

  lemma NormalizeByTextLines(s: string)
    ensures Normalize(s) == JoinLines(DropLeading(Squeeze(TextLines(s))))
  {
    hide TrimLines, SplitLines, JoinLines, Squeeze, DropLeading, Normalize;
    NormalizeIs(s);
  }

  /** What ignores one white-space character at the end ignores all of them. */
  lemma {:induction false} IgnoresTail(f: string -> string, s: string)
    requires forall t :: t != [] && IsSpace(t[|t| - 1]) ==> f(t) == f(t[..|t| - 1])
    ensures f(RightTrim(s)) == f(s)
  {
    hide IsSpace;
    if s != [] && IsSpace(s[|s| - 1]) {
      IgnoresTail(f, s[..|s| - 1]);
    }
  }

  // ---------------------------------------------------------------------------------------------
  // White space at the start
  // ---------------------------------------------------------------------------------------------

  function Collapsed(lines: seq<string>): seq<string> { DropLeading(Squeeze(lines)) }

  lemma {:induction false} DropLeadingSnoc(lines: seq<string>, last: string)
    ensures var r := DropLeading(lines);
      DropLeading(lines + [last]) == if r != [] then r + [last] else if Empty(last) then [] else [last]
  {
    hide Empty;
    var all := lines + [last];
    if lines == [] {
      assert all == [last] && [last][1..] == [];
    } else {
      assert all[0] == lines[0];
      if Empty(lines[0]) {
        assert all[1..] == lines[1..] + [last];
        DropLeadingSnoc(lines[1..], last);
      }
    }
  }

  lemma {:induction false} DropLeadingOfBlank(lines: seq<string>)
    requires forall l :: l in lines ==> Empty(l)
    ensures DropLeading(lines) == []
  {
    if lines != [] {
      assert lines[0] in lines;
      DropLeadingOfBlank(lines[1..]);
    }
  }

  lemma BlankRunWhole(lines: seq<string>)
    requires BlankRun(lines) == |lines|
    ensures forall l :: l in lines ==> Empty(l)
  {
  }

  lemma {:induction false} BlankRunCons(first: string, lines: seq<string>)
    ensures BlankRun([first] + lines)
         == BlankRun(lines) + if BlankRun(lines) == |lines| && Empty(first) then 1 else 0
  {
    hide Empty;
    if lines == [] {
      assert [first] + lines == [] + [first];
      BlankRunSnoc([], first);
    } else {
      var init, last := lines[..|lines| - 1], lines[|lines| - 1];
      assert lines == init + [last] && [first] + lines == ([first] + init) + [last];
      BlankRunCons(first, init);
      BlankRunSnoc([first] + init, last);
      BlankRunSnoc(init, last);
    }
  }

  lemma CollapsedOfBlank(lines: seq<string>)
    requires BlankRun(lines) == |lines|
    ensures Collapsed(lines) == []
  {
    hide Squeeze, DropLeading, Empty;
    BlankRunWhole(lines);
    SqueezeMembers(lines);
    DropLeadingOfBlank(Squeeze(lines));
  }

  /** One more line: cut, or added behind what the lines before collapse to. */
  lemma CollapsedSnoc(lines: seq<string>, last: string)
    ensures var r := Collapsed(lines);
      Collapsed(lines + [last]) ==
        if BlankRun(lines + [last]) > MAX_BLANK_RUN then r
        else if r != [] then r + [last] else if Empty(last) then [] else [last]
  {
    hide Squeeze, DropLeading, Empty, BlankRun;
    SqueezeSnoc(lines, last);
    DropLeadingSnoc(Squeeze(lines), last);
  }

  /** An empty line in front changes nothing. */
  lemma {:induction false} CollapsedSkipsEmpty(first: string, lines: seq<string>)
    requires Empty(first)
    ensures Collapsed([first] + lines) == Collapsed(lines)
  {
    hide Collapsed, Empty, BlankRun;
    BlankRunCons(first, lines);
    if BlankRun(lines) == |lines| {
      CollapsedOfBlank(lines);
      CollapsedOfBlank([first] + lines);
    } else {
      BlankRunBound(lines);
      var init, last := lines[..|lines| - 1], lines[|lines| - 1];
      assert lines == init + [last] && [first] + lines == ([first] + init) + [last];
      CollapsedSkipsEmpty(first, init);
      CollapsedSnoc(init, last);
      CollapsedSnoc([first] + init, last);
    }
  }

  lemma BlankRunBound(lines: seq<string>)
    ensures BlankRun(lines) <= |lines|
  {
  }

  /** A line in front that is not empty stays as it is. */
  lemma {:induction false} CollapsedCons(first: string, lines: seq<string>)
    requires !Empty(first)
    ensures Collapsed([first] + lines) == [first] + Squeeze(lines)
  {
    hide Collapsed, Empty, BlankRun, Squeeze;
    if lines == [] {
      assert [first] + lines == [] + [first];
      SqueezeOfNothing();
      CollapsedSnoc([], first);
      BlankRunSnoc([], first);
    } else {
      var init, last := lines[..|lines| - 1], lines[|lines| - 1];
      assert lines == init + [last] && [first] + lines == ([first] + init) + [last];
      CollapsedCons(first, init);
      CollapsedSnoc([first] + init, last);
      SqueezeSnoc(init, last);
      BlankRunCons(first, lines);
    }
  }

  lemma SqueezeOfNothing()
    ensures Squeeze([]) == [] && Collapsed([]) == []
  {
  }

  lemma {:induction false} RightTrimCons(c: char, s: string)
    ensures RightTrim([c] + s) == if RightTrim(s) == [] && IsSpace(c) then [] else [c] + RightTrim(s)
  {
    hide IsSpace;
    var t := [c] + s;
    if s == [] {
      assert t == [c] && [c][..0] == [];
    } else {
      assert t[|t| - 1] == s[|s| - 1];
      if IsSpace(s[|s| - 1]) {
        assert t[..|t| - 1] == [c] + s[..|s| - 1];
        RightTrimCons(c, s[..|s| - 1]);
      }
    }
  }

  lemma FirstBreakCons(c: char, s: string)
    ensures FirstBreak([c] + s) == if IsBreak(c) then 0 else FirstBreak(s) + 1
  {
    hide IsBreak;
    assert ([c] + s)[1..] == s;
  }

  lemma NextLineCons(c: char, s: string)
    requires !IsBreak(c) && FirstBreak(s) < |s|
    ensures FirstBreak([c] + s) < |[c] + s| && NextLine([c] + s) == NextLine(s) + 1
  {
    FirstBreakCons(c, s);
    hide FirstBreak, IsBreak;
    var t, n := [c] + s, FirstBreak(s);
    assert t[n + 1] == s[n] && (n + 1 < |s| ==> t[n + 2] == s[n + 1]);
  }

  /** The first line of a text, without its trailing white space. */
  function FirstLine(s: string): string { RightTrim(s[..FirstBreak(s)]) }

  /** The lines after the first one. */
  function LaterLines(s: string): seq<string> { if FirstBreak(s) < |s| then TextLines(s[NextLine(s)..]) else [] }

  lemma TextLinesIs(s: string)
    ensures TextLines(s)
         == if LaterLines(s) == [] && Empty(FirstLine(s)) then [] else [FirstLine(s)] + LaterLines(s)
  {
    hide RightTrim, TextLines, NextLine;
    if FirstBreak(s) < |s| {
      TextLinesStep(s);
    } else {
      LineWithoutBreak(s);
      assert s[..|s|] == s;
    }
  }

  /** A break in front of a text adds an empty line or, before a line feed, nothing. */
  lemma BreakCons(c: char, s: string)
    requires IsBreak(c)
    ensures TextLines([c] + s) == TextLines(s) || TextLines([c] + s) == [""] + TextLines(s)
  {
    var t := [c] + s;
    hide IsBreak, FirstBreak, TextLines;
    FirstBreakCons(c, s);
    assert t[..0] == "" && RightTrim("") == "";
    TextLinesStep(t);
    if NextLine(t) == 2 {
      LineFeedFirst(s);
      TextLinesStep(s);
      assert t[2..] == s[1..] && s[..0] == "";
    } else {
      assert t[1..] == s;
    }
  }

  lemma LineFeedFirst(s: string)
    ensures s != [] && s[0] == '\n' ==> FirstBreak(s) == 0 && NextLine(s) == 1
  {
  }

  lemma LinesCons(c: char, s: string)
    requires !IsBreak(c)
    ensures LaterLines([c] + s) == LaterLines(s)
    ensures FirstLine([c] + s) == if FirstLine(s) == [] && IsSpace(c) then [] else [c] + FirstLine(s)
  {
    hide IsBreak, IsSpace, RightTrim, FirstBreak, TextLines, NextLine;
    var t, n := [c] + s, FirstBreak(s);
    FirstBreakCons(c, s);
    assert t[..n + 1] == [c] + s[..n];
    RightTrimCons(c, s[..n]);
    if n < |s| {
      NextLineCons(c, s);
      assert t[NextLine(s) + 1..] == s[NextLine(s)..];
    }
  }

  lemma JoinLinesFirst(c: char, first: string, lines: seq<string>)
    ensures JoinLines([[c] + first] + lines) == [c] + JoinLines([first] + lines)
  {
    if lines != [] {
      JoinLinesCons([c] + first, lines);
      JoinLinesCons(first, lines);
    }
  }

  lemma NormalizeIsCollapsed(s: string)
    ensures Normalize(s) == JoinLines(Collapsed(TextLines(s)))
  {
    hide Normalize, TextLines, Squeeze, DropLeading, JoinLines;
    NormalizeByTextLines(s);
  }

  /** A text whose first line is not blank. */
  lemma NormalizeFilled(s: string)
    requires !Empty(FirstLine(s))
    ensures Normalize(s) == JoinLines([FirstLine(s)] + Squeeze(LaterLines(s)))
  {
    hide *;
    NormalizeIsCollapsed(s);
    TextLinesIs(s);
    CollapsedCons(FirstLine(s), LaterLines(s));
  }

  lemma SpaceBeforeLine(c: char, s: string)
    requires !IsBreak(c) && IsSpace(c)
    ensures Normalize([c] + s) == Normalize(s) || Normalize([c] + s) == [c] + Normalize(s)
  {
    hide Normalize, JoinLines, IsBreak, IsSpace, FirstLine, LaterLines, TextLines, Squeeze;
    LinesCons(c, s);
    if FirstLine(s) == [] {
      TextLinesIs(s);
      TextLinesIs([c] + s);
      NormalizeIsCollapsed(s);
      NormalizeIsCollapsed([c] + s);
    } else {
      NormalizeFilled(s);
      NormalizeFilled([c] + s);
      JoinLinesFirst(c, FirstLine(s), Squeeze(LaterLines(s)));
    }
  }

  lemma BreakBeforeLine(c: char, s: string)
    requires IsBreak(c)
    ensures Normalize([c] + s) == Normalize(s)
  {
    hide Normalize, JoinLines, IsBreak, TextLines, Collapsed;
    BreakCons(c, s);
    CollapsedSkipsEmpty("", TextLines(s));
    NormalizeIsCollapsed(s);
    NormalizeIsCollapsed([c] + s);
  }

  lemma LeftTrimCons(c: char, s: string)
    requires IsSpace(c)
    ensures LeftTrim([c] + s) == LeftTrim(s)
  {
    hide IsSpace;
    assert ([c] + s)[1..] == s;
  }

  /** What one white-space character in front does not change but for leading white space, all of them do not. */
  lemma {:induction false} IgnoresHead(f: string -> string, s: string)
    requires forall t :: t != [] && IsSpace(t[0]) ==> LeftTrim(f(t)) == LeftTrim(f(t[1..]))
    ensures LeftTrim(f(LeftTrim(s))) == LeftTrim(f(s))
  {
    hide IsSpace;
    if s != [] && IsSpace(s[0]) {
      IgnoresHead(f, s[1..]);
    }
  }

  lemma FirstBreakPositive(s: string)
    requires s != [] && !IsSpace(s[0])
    ensures FirstBreak(s) > 0
  {
    BreakIsSpace(s[0]);
    hide IsSpace, IsBreak;
  }

  /** A text that starts with something else than white space keeps its first character. */
  lemma NormalizeKeepsFirst(s: string)
    requires s != [] && !IsSpace(s[0])
    ensures Normalize(s) != [] && Normalize(s)[0] == s[0]
  {
    FirstBreakPositive(s);
    var first := s[..FirstBreak(s)];
    assert first == [s[0]] + first[1..];
    RightTrimCons(s[0], first[1..]);
    hide FirstBreak, IsSpace, RightTrim, Normalize, LaterLines, Squeeze;
    assert FirstLine(s)[0] == s[0];
    NormalizeFilled(s);
    JoinLinesFirst(s[0], FirstLine(s)[1..], Squeeze(LaterLines(s)));
    assert FirstLine(s) == [s[0]] + FirstLine(s)[1..];
  }

  /** Stripping a text before normalizing it is the same as removing the leading white space afterwards. So the
      normalized form of a stripped text depends only on the normalized form of the text. */
  lemma NormalizeOfStrip(s: string)
    ensures Normalize(Strip(s)) == LeftTrim(Normalize(s))
  {
    var t := LeftTrim(s);
    hide Normalize, IsSpace, IsBreak, TextLines, Squeeze, DropLeading, JoinLines;
    forall u | u != [] && IsSpace(u[|u| - 1]) ensures Normalize(u) == Normalize(u[..|u| - 1]) {
      var init, c := u[..|u| - 1], u[|u| - 1];
      assert u == init + [c];
      TextLinesSnoc(init, c);
      NormalizeByTextLines(init);
      NormalizeByTextLines(u);
    }
    IgnoresTail(Normalize, t);
    forall u | u != [] && IsSpace(u[0]) ensures LeftTrim(Normalize(u)) == LeftTrim(Normalize(u[1..])) {
      assert u == [u[0]] + u[1..];
      if IsBreak(u[0]) {
        BreakBeforeLine(u[0], u[1..]);
      } else {
        SpaceBeforeLine(u[0], u[1..]);
        LeftTrimCons(u[0], Normalize(u[1..]));
      }
    }
    IgnoresHead(Normalize, s);
    if t == [] {
      NormalizeOfNothing();
    } else {
      NormalizeKeepsFirst(t);
    }
  }

  lemma NormalizeOfNothing()
    ensures Normalize([]) == []
  {
    NormalizeIsCollapsed([]);
    hide Normalize;
  }
}

/** The laws of cutting a text into lines, of joining lines, and of collapsing blank ones. Together they determine what
    normalization yields. */
module LineLaws {
  import opened Common
  import opened Text
  import opened Normalization
  import opened NormalizedText

  // ---------------------------------------------------------------------------------------------
  // Characters
  // ---------------------------------------------------------------------------------------------

  /** The white-space characters of Unicode. */
  lemma SpacesAre(c: char)
    ensures IsSpace(c) <==>
      c as int in {9, 10, 11, 12, 13, 28, 29, 30, 31, 32, 133, 160, 5760, 8192, 8193, 8194, 8195, 8196, 8197, 8198,
                   8199, 8200, 8201, 8202, 8232, 8233, 8239, 8287, 12288}
  {
  }

  /** The line boundaries among them. */
  lemma BreaksAre(c: char)
    ensures IsBreak(c) <==> c as int in {10, 11, 12, 13, 28, 29, 30, 133, 8232, 8233}
  {
  }

  // ---------------------------------------------------------------------------------------------
  // Lines
  // ---------------------------------------------------------------------------------------------

  lemma FirstBreakIs(s: string, n: nat)
    requires n < |s| && IsBreak(s[n]) && Plain(s[..n])
    ensures FirstBreak(s) == n
  {
    assert forall i :: 0 <= i < n ==> s[..n][i] == s[i];
    hide FirstBreak, IsBreak;
  }

  /** A boundary ends a line and is not part of one; a carriage return before a line feed is not one of its own. */
  lemma LineEndsAtBreak(l: string, c: char, rest: string)
    requires Plain(l) && IsBreak(c) && !(c == '\r' && rest != "" && rest[0] == '\n')
    ensures SplitLines(l + [c] + rest) == [l] + SplitLines(rest)
  {
    hide IsBreak, FirstBreak, Plain;
    var s := l + [c] + rest;
    assert s[..|l|] == l && s[|l|] == c && s[|l| + 1..] == rest;
    FirstBreakIs(s, |l|);
    assert rest != "" ==> s[|l| + 1] == rest[0];
  }

  /** A carriage return with the line feed behind it is one boundary. */
  lemma LineEndsAtReturnAndFeed(l: string, rest: string)
    requires Plain(l)
    ensures SplitLines(l + "\r\n" + rest) == [l] + SplitLines(rest)
  {
    assert IsBreak('\r');
    hide IsBreak, FirstBreak, Plain;
    var s := l + "\r\n" + rest;
    assert s[..|l|] == l && s[|l|] == '\r' && s[|l| + 1] == '\n' && s[|l| + 2..] == rest;
    FirstBreakIs(s, |l|);
  }

  /** Without a boundary a text is one line, and without any character none. */
  lemma LastLine(l: string)
    requires Plain(l)
    ensures SplitLines(l) == if l == "" then [] else [l]
  {
    hide IsBreak;
    assert FirstBreak(l) == |l|;
  }

  /** Lines are joined by one line feed between two of them, and nothing else. */
  lemma {:induction false} JoinLinesConcat(a: seq<string>, b: seq<string>)
    requires a != [] && b != []
    ensures JoinLines(a + b) == JoinLines(a) + "\n" + JoinLines(b)
    ensures |a| == 1 ==> JoinLines(a) == a[0]
  {
    if |a| == 1 {
      assert a + b == [a[0]] + b;
      JoinLinesCons(a[0], b);
    } else {
      assert a == [a[0]] + a[1..] && a + b == [a[0]] + (a[1..] + b);
      JoinLinesConcat(a[1..], b);
      JoinLinesCons(a[0], a[1..]);
      JoinLinesCons(a[0], a[1..] + b);
    }
  }

  // ---------------------------------------------------------------------------------------------
  // Blank lines
  // ---------------------------------------------------------------------------------------------

  /** `n` blank lines. */
  function Blanks(n: nat): (r: seq<string>)
    ensures |r| == n && forall i :: 0 <= i < n ==> r[i] == ""
  {
    if n == 0 then [] else Blanks(n - 1) + [""]
  }

  lemma BlankRunBehind(front: seq<string>, b: string, rest: seq<string>)
    requires !Empty(b)
    ensures BlankRun(front + [b] + rest) == BlankRun(rest)
  {
    hide Empty, BlankRun;
    var all := front + [b] + rest;
    var m := BlankRun(rest);
    assert all[|front|] == b && forall i :: 0 <= i < |rest| ==> all[|front| + 1 + i] == rest[i];
    assert !Empty(all[|all| - m - 1]);
  }

  lemma SqueezeFilled(front: seq<string>, b: string)
    requires !Empty(b)
    ensures Squeeze(front + [b]) == Squeeze(front) + [b]
  {
    hide Squeeze, BlankRun;
    SqueezeSnoc(front, b);
    BlankRunSnoc(front, b);
  }

  lemma Tail(a: seq<string>, b: string, c: seq<string>, last: string)
    ensures a + [b] + (c + [last]) == a + [b] + c + [last]
    ensures a + [b] + [] == a + [b]
  {
  }

  /** Blank runs are cut separately on both sides of a line that is not blank. */
  lemma {:induction false} SqueezeAround(front: seq<string>, b: string, rest: seq<string>)
    requires !Empty(b)
    ensures Squeeze(front + [b] + rest) == Squeeze(front) + [b] + Squeeze(rest)
  {
    hide *;
    if rest == [] {
      SqueezeFilled(front, b);
      SqueezeOfNothing();
      Tail(front, b, [], "");
      Tail(Squeeze(front), b, [], "");
    } else {
      var init, last := rest[..|rest| - 1], rest[|rest| - 1];
      assert rest == init + [last];
      Tail(front, b, init, last);
      SqueezeAround(front, b, init);
      SqueezeSnoc(front + [b] + init, last);
      SqueezeSnoc(init, last);
      BlankRunBehind(front, b, rest);
      Tail(Squeeze(front), b, Squeeze(init), last);
    }
  }

  lemma {:induction false} BlankRunOfBlanks(n: nat)
    ensures BlankRun(Blanks(n)) == n
  {
    if n > 0 {
      hide BlankRun;
      BlankRunOfBlanks(n - 1);
      BlankRunSnoc(Blanks(n - 1), "");
    } else {
      assert Blanks(0) == [];
    }
  }

  /** A run of blank lines is cut to its first two. */
  lemma {:induction false} SqueezeOfBlanks(n: nat)
    ensures Squeeze(Blanks(n)) == Blanks(if n < 2 then n else 2)
  {
    if n > 0 {
      hide Squeeze, BlankRun;
      SqueezeOfBlanks(n - 1);
      SqueezeSnoc(Blanks(n - 1), "");
      BlankRunOfBlanks(n);
      assert Blanks(n) == Blanks(n - 1) + [""];
    }
  }

  lemma {:induction false} DropTrailingBlanks(lines: seq<string>, n: nat)
    requires lines == [] || !Empty(lines[|lines| - 1])
    ensures DropTrailing(lines + Blanks(n)) == lines
  {
    hide DropTrailing, Empty;
    if n == 0 {
      assert lines + Blanks(0) == lines;
      DropTrailingDone(lines);
    } else {
      DropTrailingBlanks(lines, n - 1);
      var all := lines + Blanks(n - 1);
      assert lines + Blanks(n) == all + [""];
      DropTrailingBlank(all);
    }
  }

  lemma DropTrailingBlank(lines: seq<string>)
    ensures DropTrailing(lines + [""]) == DropTrailing(lines)
  {
    assert (lines + [""])[..|lines|] == lines;
  }

  lemma BlanksInFront(n: nat, lines: seq<string>)
    ensures n > 0 ==> Blanks(n) + lines == [""] + (Blanks(n - 1) + lines)
    ensures Blanks(0) + lines == lines
  {
    if n > 0 {
      var all := [""] + (Blanks(n - 1) + lines);
      assert forall i :: 0 <= i < |all| ==> (Blanks(n) + lines)[i] == all[i];
    }
  }

  lemma {:induction false} DropLeadingBlanks(n: nat, lines: seq<string>)
    requires lines == [] || !Empty(lines[0])
    ensures DropLeading(Blanks(n) + lines) == lines
  {
    hide *;
    BlanksInFront(n, lines);
    if n == 0 {
      DropLeadingDone(lines);
    } else {
      DropLeadingBlanks(n - 1, lines);
      DropLeadingBlank(Blanks(n - 1) + lines);
    }
  }

  lemma DropLeadingDone(lines: seq<string>)
    requires lines == [] || !Empty(lines[0])
    ensures DropLeading(lines) == lines
  {
  }

  lemma DropLeadingBlank(lines: seq<string>)
    ensures DropLeading([""] + lines) == DropLeading(lines)
  {
    assert ([""] + lines)[1..] == lines;
  }

  /** Lines that are all blank collapse to none. */
  lemma BlankLinesCollapse(n: nat)
    ensures CollapseLines(Blanks(n)) == []
  {
    DropTrailingBlanks([], n);
    assert [] + Blanks(n) == Blanks(n);
    hide DropTrailing;
  }

  /** What is left behind leading blank lines. */
  lemma SqueezeBehindBlanks(a: nat, first: string, rest: seq<string>)
    requires !Empty(first)
    ensures DropLeading(Squeeze(Blanks(a) + [first] + rest)) == [first] + Squeeze(rest)
  {
    hide *;
    SqueezeAround(Blanks(a), first, rest);
    SqueezeOfBlanks(a);
    var n := if a < 2 then a else 2;
    var kept := [first] + Squeeze(rest);
    assert Blanks(n) + [first] + Squeeze(rest) == Blanks(n) + kept;
    DropLeadingBlanks(n, kept);
  }

  /** Otherwise the blank lines at both ends go, and every run of blank lines in between is cut to two. */
  lemma CollapseCuts(a: nat, first: string, between: seq<string>, last: string, b: nat)
    requires !Empty(first) && !Empty(last)
    ensures CollapseLines(Blanks(a) + [first] + (between + [last]) + Blanks(b))
         == [first] + (Squeeze(between) + [last])
    ensures CollapseLines(Blanks(a) + [first] + Blanks(b)) == [first]
  {
    hide *;
    var lines := Blanks(a) + [first] + (between + [last]);
    assert lines[|lines| - 1] == last;
    CollapseIs(lines, b);
    SqueezeBehindBlanks(a, first, between + [last]);
    SqueezeFilled(between, last);
    CollapseIs(Blanks(a) + [first], b);
    SqueezeBehindBlanks(a, first, []);
    SqueezeOfNothing();
    Tail(Blanks(a), first, [], "");
    assert [first] + [] == [first];
  }

  lemma CollapseIs(lines: seq<string>, b: nat)
    requires lines != [] && !Empty(lines[|lines| - 1])
    ensures CollapseLines(lines + Blanks(b)) == DropLeading(Squeeze(lines))
  {
    hide Squeeze, DropLeading, DropTrailing, Empty;
    DropTrailingBlanks(lines, b);
  }
}

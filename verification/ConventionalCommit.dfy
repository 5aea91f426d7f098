/** Conventional commit titles: the pattern `^(\w+)(?:\(([^)]*)\))?:\s*(.+?)(?:\s*\((v\d+\.\d+\.\d+)\))?$`, matched
    against the trimmed title, and the printer of such titles. */
module ConventionalCommit {
  import opened Common
  import opened Text

  /** How characters beyond ASCII are classified; left open. */
  datatype Unicode = Unicode(word: char -> bool, digit: char -> bool)

  datatype Parts = Parts(kind: string, scope: string, subject: string, version: string)

  const NO_PARTS := Parts("", "", "", "")

  predicate IsDigit(c: char, u: Unicode) {
    if c as int < 128 then '0' <= c <= '9' else u.digit(c) && !IsSpace(c)
  }

  predicate IsWordChar(c: char, u: Unicode) {
    if c as int < 128 then '0' <= c <= '9' || 'a' <= c <= 'z' || 'A' <= c <= 'Z' || c == '_'
    else u.word(c) && !IsSpace(c)
  }

  // ---------------------------------------------------------------------------------------------
  // Parsing
  // ---------------------------------------------------------------------------------------------

  function WordEnd(t: string, u: Unicode): (n: nat)
    ensures n <= |t| && (n < |t| ==> !IsWordChar(t[n], u))
    ensures forall i :: 0 <= i < n ==> IsWordChar(t[i], u)
  {
    if t == [] || !IsWordChar(t[0], u) then 0 else 1 + WordEnd(t[1..], u)
  }

  function CloseAt(t: string, from: nat): (p: nat)
    requires from <= |t|
    ensures from <= p <= |t| && (p < |t| ==> t[p] == ')')
    ensures forall i :: from <= i < p ==> t[i] != ')'
    decreases |t| - from
  {
    if from < |t| && t[from] != ')' then CloseAt(t, from + 1) else from
  }

  function DigitsEnd(s: string, from: nat, u: Unicode): (e: nat)
    requires from <= |s|
    ensures from <= e <= |s| && (e < |s| ==> !IsDigit(s[e], u))
    ensures forall i :: from <= i < e ==> IsDigit(s[i], u)
    decreases |s| - from
  {
    if from < |s| && IsDigit(s[from], u) then DigitsEnd(s, from + 1, u) else from
  }

  /** `v\d+\.\d+\.\d+` */
  predicate IsVersion(v: string, u: Unicode) {
    && v != [] && v[0] == 'v'
    && var a := DigitsEnd(v, 1, u);
    && 1 < a < |v| && v[a] == '.'
    && var b := DigitsEnd(v, a + 1, u);
    && a + 1 < b < |v| - 1 && v[b] == '.'
    && DigitsEnd(v, b + 1, u) == |v|
  }

  /** From `q` on the text is a version in parentheses. */
  predicate IsTag(r: string, q: nat, u: Unicode) {
    q + 2 <= |r| && r[q] == '(' && r[|r| - 1] == ')' && IsVersion(r[q + 1..|r| - 1], u)
  }

  /** From `e` on the text is `\s*\((v\d+\.\d+\.\d+)\)`. */
  predicate Tagged(r: string, e: nat, u: Unicode)
    requires e <= |r|
  {
    IsTag(r, FirstNonSpace(r, e, |r|), u)
  }

  datatype Head = Head(kind: string, scope: string, rest: string)

  /** What stands before and behind the colon. */
  function SplitHead(t: string, u: Unicode): Option<Head> {
    var n := WordEnd(t, u);
    if n == 0 || n == |t| then None
    else if t[n] == ':' then Some(Head(t[..n], "", t[n + 1..]))
    else if t[n] == '(' then
      var p := CloseAt(t, n + 1);
      if p + 1 < |t| && t[p + 1] == ':' then Some(Head(t[..n], t[n + 1..p], t[p + 2..])) else None
    else None
  }

  /** The lazy search for the end of the subject: the first place behind `b` where the rest is a tag, or the end. */
  function SubjectEnd(r: string, e: nat, u: Unicode): (f: int)
    requires e <= |r|
    ensures f == -1 || e <= f <= |r|
    decreases |r| - e
  {
    if e == |r| || Tagged(r, e, u) then e
    else if r[e] == '\n' then -1
    else SubjectEnd(r, e + 1, u)
  }

  lemma {:induction false} SubjectEndIs(r: string, e: nat, u: Unicode)
    requires e <= |r|
    ensures var f := SubjectEnd(r, e, u);
      && f <= |r|
      && (forall i :: e <= i < f ==> !Tagged(r, i, u) && r[i] != '\n')
      && (if f == -1 then exists k :: Blocked(r, e, k, u) else e <= f && (f == |r| || Tagged(r, f, u)))
    decreases |r| - e
  {
    hide Tagged;
    if e < |r| && !Tagged(r, e, u) {
      if r[e] == '\n' {
        assert Blocked(r, e, e, u);
      } else {
        SubjectEndIs(r, e + 1, u);
        if SubjectEnd(r, e + 1, u) == -1 {
          var k :| Blocked(r, e + 1, k, u);
          assert Blocked(r, e, k, u);
        }
      }
    }
  }

  /** There is a line feed before any place where the subject could end. */
  ghost predicate Blocked(r: string, e: nat, k: nat, u: Unicode) {
    e <= k < |r| && r[k] == '\n' && forall i :: e <= i <= k ==> !Tagged(r, i, u)
  }

  datatype Body = Body(subject: string, version: string)

  function SplitBody(r: string, u: Unicode): Option<Body> {
    var b := FirstNonSpace(r, 0, |r|);
    if b == |r| then None
    else
      SubjectEndIs(r, b + 1, u);
      var e := SubjectEnd(r, b + 1, u);
      if e == -1 then None
      else
        Some(Body(Strip(r[b..e]), if Tagged(r, e, u) then r[FirstNonSpace(r, e, |r|) + 1..|r| - 1] else ""))
  }

  /** The four parts; all empty if the title does not match. */
  function Parse(title: string, u: Unicode): Parts {
    match SplitHead(Strip(title), u)
    case None => NO_PARTS
    case Some(h) =>
      match SplitBody(h.rest, u)
      case None => NO_PARTS
      case Some(b) => Parts(h.kind, h.scope, b.subject, b.version)
  }

  // ---------------------------------------------------------------------------------------------
  // Printing
  // ---------------------------------------------------------------------------------------------

  function PrintHead(kind: string, scope: string): string {
    kind + if scope != "" then "(" + scope + ")" else ""
  }

  function PrintBody(subject: string, version: string): string {
    subject + if version != "" then " (" + version + ")" else ""
  }

  function Print(p: Parts): string { PrintHead(p.kind, p.scope) + ":" + (" " + PrintBody(p.subject, p.version)) }

  // ---------------------------------------------------------------------------------------------
  // What is printed can be parsed
  // ---------------------------------------------------------------------------------------------

  predicate WellFormedHead(kind: string, scope: string, u: Unicode) {
    kind != "" && (forall i :: 0 <= i < |kind| ==> IsWordChar(kind[i], u)) && ')' !in scope
  }

  /** The subject is one trimmed line; without a version it does not end in a tag of its own. */
  predicate WellFormedBody(subject: string, version: string, u: Unicode) {
    && subject != "" && Trimmed(subject) && '\n' !in subject
    && if version != "" then IsVersion(version, u) else forall q :: 0 < q < |subject| ==> !IsTag(subject, q, u)
  }

  predicate WellFormed(p: Parts, u: Unicode) {
    WellFormedHead(p.kind, p.scope, u) && WellFormedBody(p.subject, p.version, u)
  }

  lemma WordEndOf(kind: string, t: string, u: Unicode)
    requires |kind| < |t| && t[..|kind|] == kind && !IsWordChar(t[|kind|], u)
    requires forall i :: 0 <= i < |kind| ==> IsWordChar(kind[i], u)
    ensures WordEnd(t, u) == |kind|
  {
    hide IsWordChar, WordEnd;
    assert forall i :: 0 <= i < |kind| ==> t[i] == kind[i];
  }

  lemma CloseAfter(scope: string, t: string, from: nat)
    requires from + |scope| < |t| && t[from..from + |scope|] == scope && ')' !in scope && t[from + |scope|] == ')'
    ensures CloseAt(t, from) == from + |scope|
  {
    hide CloseAt;
    forall i | from <= i < from + |scope| ensures t[i] != ')' {
      assert t[i] == scope[i - from] && scope[i - from] in scope;
    }
  }

  /** A way for `(\w+)(?:\(([^)]*)\))?:` to match the start of `t`. */
  ghost predicate HeadMatch(t: string, h: Head, u: Unicode) {
    && WellFormedHead(h.kind, h.scope, u)
    && ((h.scope == "" && t == h.kind + ":" + h.rest) || t == h.kind + ("(" + h.scope + ")") + ":" + h.rest)
  }

  lemma UnscopedSplit(kind: string, rest: string, u: Unicode)
    requires WellFormedHead(kind, "", u)
    ensures SplitHead(kind + ":" + rest, u) == Some(Head(kind, "", rest))
  {
    var t, n := kind + ":" + rest, |kind|;
    assert !IsWordChar(':', u);
    hide IsWordChar, WordEnd, CloseAt;
    assert t[..n] == kind && t[n] == ':' && t[n + 1..] == rest;
    WordEndOf(kind, t, u);
  }

  lemma ScopedLayout(kind: string, scope: string, rest: string)
    ensures var t, n, p := kind + ("(" + scope + ")") + ":" + rest, |kind|, |kind| + 1 + |scope|;
      && p + 1 < |t| && t[..n] == kind && t[n] == '(' && t[n + 1..p] == scope && t[p] == ')' && t[p + 1] == ':'
      && t[p + 2..] == rest
  {
  }

  lemma ScopedSplit(kind: string, scope: string, rest: string, u: Unicode)
    requires WellFormedHead(kind, scope, u)
    ensures SplitHead(kind + ("(" + scope + ")") + ":" + rest, u) == Some(Head(kind, scope, rest))
  {
    var t, n, p := kind + ("(" + scope + ")") + ":" + rest, |kind|, |kind| + 1 + |scope|;
    assert !IsWordChar('(', u);
    ScopedLayout(kind, scope, rest);
    hide IsWordChar, WordEnd, CloseAt;
    WordEndOf(kind, t, u);
    CloseAfter(scope, t, n + 1);
  }

  /** There is at most one way to match the head, and `SplitHead` finds it. */
  lemma SplitHeadIff(t: string, h: Head, u: Unicode)
    ensures SplitHead(t, u) == Some(h) <==> HeadMatch(t, h, u)
  {
    if HeadMatch(t, h, u) {
      hide SplitHead, WellFormedHead;
      if h.scope == "" && t == h.kind + ":" + h.rest {
        UnscopedSplit(h.kind, h.rest, u);
      } else {
        ScopedSplit(h.kind, h.scope, h.rest, u);
      }
    } else if SplitHead(t, u) == Some(h) {
      SplitHeadMatches(t, u);
      assert false;
    }
  }

  lemma SplitHeadMatches(t: string, u: Unicode)
    requires SplitHead(t, u).Some?
    ensures HeadMatch(t, SplitHead(t, u).value, u)
  {
    hide IsWordChar, WordEnd, CloseAt;
    var n := WordEnd(t, u);
    if t[n] == ':' {
      assert t == t[..n] + ":" + t[n + 1..];
    } else {
      Reassembled(t, n, CloseAt(t, n + 1));
    }
  }

  lemma Reassembled(t: string, n: nat, p: nat)
    requires n < p && p + 1 < |t| && t[n] == '(' && t[p] == ')' && t[p + 1] == ':'
    ensures t == t[..n] + ("(" + t[n + 1..p] + ")") + ":" + t[p + 2..]
  {
  }

  // ---------------------------------------------------------------------------------------------
  // The body
  // ---------------------------------------------------------------------------------------------

  lemma SubjectEndAt(r: string, e: nat, k: nat, u: Unicode)
    requires e <= k <= |r| && (k == |r| || Tagged(r, k, u))
    requires forall i :: e <= i < k ==> !Tagged(r, i, u) && r[i] != '\n'
    ensures SubjectEnd(r, e, u) == k
  {
    hide Tagged, SubjectEnd;
    SubjectEndIs(r, e, u);
  }

  /** A way for `\s*(.+?)(?:\s*\((v\d+\.\d+\.\d+)\))?$` to match `r`. */
  ghost predicate BodyMatch(r: string, b: nat, e: nat, tagged: bool, u: Unicode) {
    && b < e <= |r|
    && (forall i :: 0 <= i < b ==> IsSpace(r[i])) && (forall i :: b <= i < e ==> r[i] != '\n')
    && if tagged then Tagged(r, e, u) else e == |r|
  }

  /** Of two ways to match, the one tried first: as much white space as possible, then as short a subject as
      possible, then with the tag. */
  predicate TriedBefore(b: nat, e: nat, tagged: bool, b': nat, e': nat, tagged': bool) {
    b > b' || (b == b' && (e < e' || (e == e' && (tagged || !tagged'))))
  }

  lemma VersionChars(v: string, u: Unicode, i: nat)
    requires IsVersion(v, u) && i < |v|
    ensures v[i] == 'v' || v[i] == '.' || IsDigit(v[i], u)
  {
    hide IsDigit, DigitsEnd;
  }

  /** A tag holds no white space. */
  lemma TagChars(r: string, q: nat, u: Unicode, i: nat)
    requires IsTag(r, q, u) && q <= i < |r|
    ensures !IsSpace(r[i])
  {
    hide IsVersion;
    assert !IsSpace('(') && !IsSpace(')') && !IsSpace('v') && !IsSpace('.');
    if q < i < |r| - 1 {
      var v := r[q + 1..|r| - 1];
      assert v[i - q - 1] == r[i];
      VersionChars(v, u, i - q - 1);
    }
  }

  lemma SameTag(r: string, e: nat, b: nat, u: Unicode)
    requires e <= b < |r| && !IsSpace(r[b]) && forall i :: e <= i < b ==> IsSpace(r[i])
    ensures Tagged(r, e, u) <==> IsTag(r, b, u)
  {
    hide IsSpace, IsTag, FirstNonSpace;
  }

  /** The subject starts at `b` and ends where the lazy search ends. */
  lemma SubjectIsMatch(r: string, b: nat, u: Unicode)
    requires b == FirstNonSpace(r, 0, |r|) && b < |r| && SubjectEnd(r, b + 1, u) != -1
    ensures var e := SubjectEnd(r, b + 1, u); b < e <= |r| && BodyMatch(r, b, e, Tagged(r, e, u), u)
  {
    hide IsSpace, Tagged, SubjectEnd, FirstNonSpace, Blocked, BodyMatch;
    SubjectEndIs(r, b + 1, u);
    LineFeedIsSpace();
    BodyMatchIs(r, b, SubjectEnd(r, b + 1, u), u);
  }

  lemma LineFeedIsSpace()
    ensures IsSpace('\n')
  {
  }

  lemma BodyMatchIs(r: string, b: nat, e: nat, u: Unicode)
    requires b < e <= |r| && (e == |r| || Tagged(r, e, u)) && r[b] != '\n'
    requires (forall i :: 0 <= i < b ==> IsSpace(r[i])) && (forall i :: b + 1 <= i < e ==> r[i] != '\n')
    ensures BodyMatch(r, b, e, Tagged(r, e, u), u)
  {
    hide IsSpace, Tagged;
  }

  lemma EndsAhead(r: string, b: nat, b': nat, e': nat, tagged': bool, u: Unicode)
    requires BodyMatch(r, b', e', tagged', u) && b' <= b < e'
    ensures SubjectEnd(r, b + 1, u) != -1 && SubjectEnd(r, b + 1, u) <= e'
  {
    hide Tagged, SubjectEnd, IsSpace;
    SubjectEndIs(r, b + 1, u);
  }

  lemma EndsBehind(r: string, b: nat, b': nat, e': nat, tagged': bool, u: Unicode)
    requires BodyMatch(r, b', e', tagged', u) && e' <= b < |r| && b == FirstNonSpace(r, 0, |r|)
    ensures SubjectEnd(r, b + 1, u) != -1
  {
    hide SubjectEnd, IsSpace, FirstNonSpace, IsTag, Tagged;
    SameTag(r, e', b, u);
    SubjectEndIs(r, b + 1, u);
    TagIsOneLine(r, b, u);
  }

  lemma TagIsOneLine(r: string, q: nat, u: Unicode)
    requires IsTag(r, q, u)
    ensures forall i :: q <= i < |r| ==> r[i] != '\n'
  {
    assert IsSpace('\n');
    hide IsSpace, IsTag;
    forall i | q <= i < |r| ensures r[i] != '\n' {
      TagChars(r, q, u, i);
    }
  }

  /** Whatever way there is to match, the lazy search behind the white space succeeds and is tried before it. */
  lemma TriedLater(r: string, b': nat, e': nat, tagged': bool, u: Unicode)
    requires BodyMatch(r, b', e', tagged', u) && (r == [] || !IsSpace(r[|r| - 1]))
    ensures var b := FirstNonSpace(r, 0, |r|);
      && b < |r| && SubjectEnd(r, b + 1, u) != -1
      && SubjectEnd(r, b + 1, u) <= |r|
      && TriedBefore(b, SubjectEnd(r, b + 1, u), Tagged(r, SubjectEnd(r, b + 1, u), u), b', e', tagged')
  {
    hide Tagged, SubjectEnd, IsSpace, FirstNonSpace;
    var b := FirstNonSpace(r, 0, |r|);
    assert b' <= b < |r|;
    SubjectEndIs(r, b + 1, u);
    if e' <= b {
      EndsBehind(r, b, b', e', tagged', u);
    } else {
      EndsAhead(r, b, b', e', tagged', u);
    }
  }

  /** `SplitBody` is the way to match that is tried first, if there is any. */
  lemma {:induction false} SplitBodyIsFirst(r: string, u: Unicode)
    requires r == [] || !IsSpace(r[|r| - 1])
    ensures SplitBody(r, u) == None ==> forall b, e, tagged :: !BodyMatch(r, b, e, tagged, u)
    ensures SplitBody(r, u).Some? ==>
      var b := FirstNonSpace(r, 0, |r|);
      var e := SubjectEnd(r, b + 1, u);
      && b < e <= |r| && BodyMatch(r, b, e, Tagged(r, e, u), u)
      && forall b', e', tagged' {:trigger BodyMatch(r, b', e', tagged', u)} ::
           BodyMatch(r, b', e', tagged', u) ==> TriedBefore(b, e, Tagged(r, e, u), b', e', tagged')
  {
    hide IsSpace, Tagged, SubjectEnd, FirstNonSpace, BodyMatch, TriedBefore, Strip;
    var b := FirstNonSpace(r, 0, |r|);
    if SplitBody(r, u).Some? {
      SubjectIsMatch(r, b, u);
    }
    forall b', e', tagged' | BodyMatch(r, b', e', tagged', u)
      ensures b < |r| && SubjectEnd(r, b + 1, u) != -1 && SubjectEnd(r, b + 1, u) <= |r|
      ensures TriedBefore(b, SubjectEnd(r, b + 1, u), Tagged(r, SubjectEnd(r, b + 1, u), u), b', e', tagged')
    {
      TriedLater(r, b', e', tagged', u);
    }
  }

  // ---------------------------------------------------------------------------------------------
  // Round trips
  // ---------------------------------------------------------------------------------------------

  lemma TagShift(x: string, s: string, q: nat, u: Unicode)
    ensures IsTag(x + s, |x| + q, u) <==> IsTag(s, q, u)
  {
    hide IsVersion;
    var r := x + s;
    if q + 2 <= |s| {
      assert r[|x| + q + 1..|r| - 1] == s[q + 1..|s| - 1];
    }
  }

  lemma TagHasVersion(r: string, q: nat, u: Unicode)
    requires IsTag(r, q, u)
    ensures q + 1 <= |r| - 1 && r[q + 1..|r| - 1] != "" && IsVersion(r[q + 1..|r| - 1], u)
  {
  }

  /** The version behind a subject that ends at `e`. */
  function VersionAt(r: string, e: nat, u: Unicode): string
    requires e <= |r|
  {
    if Tagged(r, e, u) then
      TagHasVersion(r, FirstNonSpace(r, e, |r|), u);
      r[FirstNonSpace(r, e, |r|) + 1..|r| - 1]
    else ""
  }

  lemma BodyFound(r: string, b: nat, k: nat, u: Unicode)
    requires b == FirstNonSpace(r, 0, |r|) && b < k <= |r| && SubjectEnd(r, b + 1, u) == k
    ensures SplitBody(r, u) == Some(Body(Strip(r[b..k]), VersionAt(r, k, u)))
  {
    hide IsSpace, IsTag, FirstNonSpace, SubjectEnd, Strip, Tagged, Trimmed;
  }

  /** A subject from `b` to `k`, where the rest is a tag or nothing for the first time, is what is found. */
  lemma BodyAt(r: string, b: nat, k: nat, u: Unicode)
    requires b < k <= |r| && FirstNonSpace(r, 0, |r|) == b && (k == |r| || Tagged(r, k, u)) && Trimmed(r[b..k])
    requires forall i :: b + 1 <= i < k ==> !Tagged(r, i, u) && r[i] != '\n'
    ensures SplitBody(r, u) == Some(Body(r[b..k], VersionAt(r, k, u)))
  {
    hide *;
    StripOfTrimmed(r[b..k]);
    SubjectEndAt(r, b + 1, k, u);
    BodyFound(r, b, k, u);
  }

  lemma FirstIs(r: string, e: nat, q: nat)
    requires e <= q < |r| && !IsSpace(r[q]) && forall i :: e <= i < q ==> IsSpace(r[i])
    ensures FirstNonSpace(r, e, |r|) == q
  {
    hide IsSpace, FirstNonSpace;
  }

  lemma NoTagAtEnd(r: string, u: Unicode)
    ensures !IsTag(r, |r|, u)
  {
  }

  /** White space and a subject without a tag of its own. */
  lemma PlainBody(w: string, subject: string, u: Unicode)
    requires Blank(w) && WellFormedBody(subject, "", u)
    ensures SplitBody(w + subject, u) == Some(Body(subject, ""))
  {
    hide IsSpace, IsTag, FirstNonSpace, SplitBody, Tagged;
    var r, b := w + subject, |w|;
    assert r[b..|r|] == subject && r[b] == subject[0] && forall i :: 0 <= i < b ==> r[i] == w[i];
    FirstIs(r, 0, b);
    forall i | b + 1 <= i <= |r| ensures !Tagged(r, i, u) && (i < |r| ==> r[i] != '\n') {
      NotTaggedPlain(w, subject, i, u);
    }
    BodyAt(r, b, |r|, u);
  }

  lemma NotTaggedPlain(w: string, subject: string, i: nat, u: Unicode)
    requires WellFormedBody(subject, "", u) && |w| < i <= |w| + |subject|
    ensures var r := w + subject; !Tagged(r, i, u) && (i < |r| ==> r[i] != '\n')
  {
    hide IsTag, FirstNonSpace, Trimmed;
    var r := w + subject;
    var q := FirstNonSpace(r, i, |r|);
    TagShift(w, subject, q - |w|, u);
    NoTagAtEnd(r, u);
    assert i < |r| ==> r[i] == subject[i - |w|] && subject[i - |w|] in subject;
  }

  lemma TagParen(r: string, q: nat, u: Unicode, i: nat)
    requires IsTag(r, q, u) && q < i < |r| - 1
    ensures r[i] != '('
  {
    hide IsVersion;
    var v := r[q + 1..|r| - 1];
    assert v[i - q - 1] == r[i];
    VersionChars(v, u, i - q - 1);
  }

  /** The end of the subject at `k`, and the tag, after white space, at `q`. */
  lemma OneTag(r: string, k: nat, q: nat, u: Unicode)
    requires 0 < k <= q < |r| && !IsSpace(r[k - 1]) && IsTag(r, q, u) && forall i :: k <= i < q ==> IsSpace(r[i])
    ensures Tagged(r, k, u) && FirstNonSpace(r, k, |r|) == q && forall i :: 0 <= i < k ==> !Tagged(r, i, u)
  {
    assert r[q] == '(' && !IsSpace('(') && q < |r| - 1;
    FirstIs(r, k, q);
    hide IsSpace, IsTag, FirstNonSpace;
    forall i | 0 <= i < k ensures !Tagged(r, i, u) {
      if Tagged(r, i, u) {
        TagParen(r, FirstNonSpace(r, i, |r|), u, q);
        assert false;
      }
    }
  }

  lemma TaggedLayout(w: string, subject: string, gap: string, version: string)
    ensures var r, k := w + subject + (gap + ("(" + version + ")")), |w| + |subject|;
      var q := k + |gap|;
      && |r| == q + |version| + 2 && r[|w|..k] == subject && r[q] == '(' && r[|r| - 1] == ')'
      && r[q + 1..|r| - 1] == version
      && (forall i :: 0 <= i < |w| ==> r[i] == w[i]) && (forall i :: k <= i < q ==> r[i] == gap[i - k])
      && forall i :: |w| <= i < k ==> r[i] == subject[i - |w|]
  {
  }

  lemma OneLineOf(subject: string, r: string, b: nat)
    requires '\n' !in subject && b + |subject| <= |r| && r[b..b + |subject|] == subject
    ensures forall i :: b <= i < b + |subject| ==> r[i] != '\n'
  {
    forall i | b <= i < b + |subject| ensures r[i] != '\n' {
      assert r[i] == r[b..b + |subject|][i - b];
      assert r[i] in subject;
    }
  }

  lemma LayoutTag(w: string, subject: string, gap: string, version: string, u: Unicode)
    requires Blank(w) && Blank(gap) && subject != "" && Trimmed(subject) && IsVersion(version, u)
    ensures var r, b, k := w + subject + (gap + ("(" + version + ")")), |w|, |w| + |subject|;
      && k + |gap| < |r| && !IsSpace(r[b]) && !IsSpace(r[k - 1]) && IsTag(r, k + |gap|, u)
      && (forall i :: 0 <= i < b ==> IsSpace(r[i])) && forall i :: k <= i < k + |gap| ==> IsSpace(r[i])
  {
    hide IsVersion, IsSpace;
    var r, k := w + subject + (gap + ("(" + version + ")")), |w| + |subject|;
    TaggedLayout(w, subject, gap, version);
    assert r[|w|] == subject[0] && r[k - 1] == subject[|subject| - 1];
  }

  lemma VersionIs(r: string, k: nat, q: nat, version: string, u: Unicode)
    requires k <= q && q + 2 <= |r| && Tagged(r, k, u) && FirstNonSpace(r, k, |r|) == q
    requires r[q + 1..|r| - 1] == version
    ensures VersionAt(r, k, u) == version
  {
    hide Tagged, FirstNonSpace;
  }

  lemma Layout(w: string, subject: string, gap: string, version: string, u: Unicode)
    requires Blank(w) && Blank(gap) && subject != "" && Trimmed(subject) && IsVersion(version, u)
    ensures var r, b, k := w + subject + (gap + ("(" + version + ")")), |w|, |w| + |subject|;
      && b < k <= |r| && r[b..k] == subject && FirstNonSpace(r, 0, |r|) == b
      && Tagged(r, k, u) && VersionAt(r, k, u) == version
      && forall i :: 0 <= i < k ==> !Tagged(r, i, u)
  {
    hide *;
    var r, k := w + subject + (gap + ("(" + version + ")")), |w| + |subject|;
    TaggedLayout(w, subject, gap, version);
    LayoutTag(w, subject, gap, version, u);
    FirstIs(r, 0, |w|);
    OneTag(r, k, k + |gap|, u);
    VersionIs(r, k, k + |gap|, version, u);
  }

  /** White space, a subject, and a tag behind more white space or none. */
  lemma TaggedBody(w: string, subject: string, gap: string, version: string, u: Unicode)
    requires Blank(w) && Blank(gap) && WellFormedBody(subject, version, u) && version != ""
    ensures SplitBody(w + subject + (gap + ("(" + version + ")")), u) == Some(Body(subject, version))
  {
    hide IsSpace, FirstNonSpace, SplitBody, IsVersion, Tagged, VersionAt, Trimmed, Blank;
    var r := w + subject + (gap + ("(" + version + ")"));
    Layout(w, subject, gap, version, u);
    OneLineOf(subject, r, |w|);
    BodyAt(r, |w|, |w| + |subject|, u);
  }

  /** The text is white space, the subject, and the tag if there is one, behind more white space or none. */
  ghost predicate BodyReads(r: string, subject: string, version: string, w: string, gap: string, u: Unicode) {
    && WellFormedBody(subject, version, u) && Blank(w) && Blank(gap)
    && r == w + subject + if version == "" then "" else gap + ("(" + version + ")")
  }

  lemma BodyOfReading(r: string, subject: string, version: string, w: string, gap: string, u: Unicode)
    requires BodyReads(r, subject, version, w, gap, u)
    ensures SplitBody(r, u) == Some(Body(subject, version))
  {
    hide SplitBody, WellFormedBody, Blank;
    if version == "" {
      assert w + subject + "" == w + subject;
      PlainBody(w, subject, u);
    } else {
      TaggedBody(w, subject, gap, version, u);
    }
  }

  lemma PrintTrimmed(p: Parts, u: Unicode)
    requires WellFormed(p, u)
    ensures Strip(Print(p)) == Print(p)
  {
    var t := Print(p);
    assert !IsSpace(')');
    assert t[0] == p.kind[0];
    assert t[|t| - 1] == if p.version != "" then ')' else p.subject[|p.subject| - 1];
    WordIsNoSpace(p.kind[0], u);
    StripOfTrimmed(t);
  }

  lemma WordIsNoSpace(c: char, u: Unicode)
    requires IsWordChar(c, u)
    ensures !IsSpace(c)
  {
  }

  lemma SubjectTrimmed(r: string, b: nat, e: nat, u: Unicode)
    requires b < e <= |r| && !IsSpace(r[b]) && !IsSpace(r[|r| - 1]) && (e == |r| || Tagged(r, e, u))
    requires forall i :: b + 1 <= i < e ==> !Tagged(r, i, u)
    ensures Trimmed(r[b..e]) && Strip(r[b..e]) == r[b..e]
  {
    hide IsSpace, Tagged, Strip;
    if e - 1 > b && IsSpace(r[e - 1]) {
      SpaceBeforeTag(r, e, u);
      assert false;
    }
    var subject := r[b..e];
    assert subject[0] == r[b] && subject[|subject| - 1] == r[e - 1];
    StripOfTrimmed(subject);
  }

  lemma SubjectIsOneLine(r: string, b: nat, e: nat)
    requires b < e <= |r| && forall i :: b <= i < e ==> r[i] != '\n'
    ensures '\n' !in r[b..e]
  {
    assert forall i :: 0 <= i < e - b ==> r[b..e][i] == r[b + i];
  }

  lemma VersionIsWellFormed(r: string, b: nat, e: nat, u: Unicode)
    requires b < e <= |r| && (e == |r| || Tagged(r, e, u)) && forall i :: b + 1 <= i < e ==> !Tagged(r, i, u)
    ensures if Tagged(r, e, u) then
              var q := FirstNonSpace(r, e, |r|);
              q + 2 <= |r| && r[q + 1..|r| - 1] != "" && IsVersion(r[q + 1..|r| - 1], u)
            else forall q :: 0 < q < e - b ==> !IsTag(r[b..e], q, u)
  {
    hide IsSpace, IsTag, IsVersion, FirstNonSpace;
    if Tagged(r, e, u) {
      TagHasVersion(r, FirstNonSpace(r, e, |r|), u);
    } else {
      hide Tagged;
      assert r[b..e] == r[b..];
      forall q | 0 < q < e - b ensures !IsTag(r[b..], q, u) {
        NoTagBehind(r, b, q, u);
      }
    }
  }

  /** A subject from `b` to `e`, cut at the first place where the rest can be a tag. */
  ghost predicate Subject(r: string, b: nat, e: nat, u: Unicode) {
    && b < e <= |r| && !IsSpace(r[b]) && (e == |r| || Tagged(r, e, u))
    && (forall i :: b + 1 <= i < e ==> !Tagged(r, i, u)) && (forall i :: b <= i < e ==> r[i] != '\n')
  }

  lemma FoundSubject(r: string, u: Unicode)
    requires r != [] && SplitBody(r, u).Some?
    ensures var b := FirstNonSpace(r, 0, |r|);
      && b < |r| && SubjectEnd(r, b + 1, u) != -1
      && var e := SubjectEnd(r, b + 1, u);
      Subject(r, b, e, u) && SplitBody(r, u) == Some(Body(Strip(r[b..e]), VersionAt(r, e, u)))
  {
    hide IsSpace, SubjectEnd, FirstNonSpace, IsTag, Strip, Tagged;
    LineFeedIsSpace();
    SubjectEndIs(r, FirstNonSpace(r, 0, |r|) + 1, u);
  }

  lemma SubjectIsWellFormed(r: string, b: nat, e: nat, u: Unicode)
    requires Subject(r, b, e, u) && !IsSpace(r[|r| - 1])
    ensures Strip(r[b..e]) == r[b..e] && WellFormedBody(r[b..e], VersionAt(r, e, u), u)
  {
    hide IsSpace, FirstNonSpace, IsTag, Strip, IsVersion, Tagged, Trimmed;
    SubjectTrimmed(r, b, e, u);
    SubjectIsOneLine(r, b, e);
    VersionIsWellFormed(r, b, e, u);
    assert r[b..e] != "";
  }

  /** The subject found is trimmed, because it ends at the first place where the rest could be a tag. */
  lemma BodyIsWellFormed(r: string, u: Unicode)
    requires r != [] && !IsSpace(r[|r| - 1]) && SplitBody(r, u).Some?
    ensures WellFormedBody(SplitBody(r, u).value.subject, SplitBody(r, u).value.version, u)
  {
    hide *;
    FoundSubject(r, u);
    var b := FirstNonSpace(r, 0, |r|);
    SubjectIsWellFormed(r, b, SubjectEnd(r, b + 1, u), u);
  }

  lemma SpaceBeforeTag(r: string, e: nat, u: Unicode)
    requires 0 < e <= |r| && IsSpace(r[e - 1]) && (e == |r| || Tagged(r, e, u)) && !IsSpace(r[|r| - 1])
    ensures Tagged(r, e - 1, u)
  {
    hide IsSpace, IsTag;
  }

  lemma NoTagBehind(r: string, b: nat, q: nat, u: Unicode)
    requires b + q < |r| && !Tagged(r, b + q, u)
    ensures !IsTag(r[b..], q, u)
  {
    assert r == r[..b] + r[b..];
    assert !IsSpace('(');
    TagShift(r[..b], r[b..], q, u);
    hide IsSpace, IsVersion;
  }

  lemma RestEndsTrimmed(t: string, u: Unicode)
    requires Trimmed(t) && SplitHead(t, u).Some?
    ensures var r := SplitHead(t, u).value.rest; r == [] || !IsSpace(r[|r| - 1])
  {
    hide IsSpace, WordEnd, CloseAt, IsWordChar;
  }

  /** Whatever is parsed is well formed, unless nothing is. */
  lemma ParseIsWellFormed(title: string, u: Unicode)
    ensures Parse(title, u) == NO_PARTS || WellFormed(Parse(title, u), u)
  {
    var t := Strip(title);
    hide Strip, Trimmed, IsSpace, SplitBody, SplitHead, WellFormedBody, WellFormedHead;
    if SplitHead(t, u).Some? {
      var h := SplitHead(t, u).value;
      SplitHeadIff(t, h, u);
      RestEndsTrimmed(t, u);
      NothingToSplit(h.rest, u);
      if SplitBody(h.rest, u).Some? {
        BodyIsWellFormed(h.rest, u);
      }
    }
  }

  lemma NothingToSplit(r: string, u: Unicode)
    ensures r == [] ==> SplitBody(r, u) == None
  {
  }

  lemma ReadingOfBody(r: string, u: Unicode) returns (w: string, gap: string)
    requires r != [] && !IsSpace(r[|r| - 1]) && SplitBody(r, u).Some?
    ensures BodyReads(r, SplitBody(r, u).value.subject, SplitBody(r, u).value.version, w, gap, u)
  {
    hide *;
    FoundSubject(r, u);
    var b := FirstNonSpace(r, 0, |r|);
    var e := SubjectEnd(r, b + 1, u);
    SubjectIsWellFormed(r, b, e, u);
    w, gap := SubjectReads(r, b, e, u);
  }

  lemma SubjectReads(r: string, b: nat, e: nat, u: Unicode) returns (w: string, gap: string)
    requires b == FirstNonSpace(r, 0, |r|) && Subject(r, b, e, u) && WellFormedBody(r[b..e], VersionAt(r, e, u), u)
    ensures BodyReads(r, r[b..e], VersionAt(r, e, u), w, gap, u)
  {
    hide IsSpace, FirstNonSpace, IsVersion, WellFormedBody, IsTag, Blank;
    w, gap := r[..b], "";
    SpacesAreBlank(r, 0, b);
    assert r[0..b] == w && r[e..e] == "";
    if Tagged(r, e, u) {
      var q := FirstNonSpace(r, e, |r|);
      gap := r[e..q];
      SpacesAreBlank(r, e, q);
      TagHasVersion(r, q, u);
      TagEnds(r, q, u);
      Pieces(r, b, e, q);
    } else {
      SpacesAreBlank(r, e, e);
      assert r == r[..b] + r[b..e] + "";
    }
  }

  lemma SpacesAreBlank(r: string, from: nat, end: nat)
    requires from <= end <= |r| && forall i :: from <= i < end ==> IsSpace(r[i])
    ensures Blank(r[from..end])
  {
    hide IsSpace;
  }

  lemma TagEnds(r: string, q: nat, u: Unicode)
    requires IsTag(r, q, u)
    ensures q + 2 <= |r| && r[q..] == "(" + r[q + 1..|r| - 1] + ")"
  {
    hide IsVersion;
  }

  lemma Pieces(r: string, b: nat, e: nat, q: nat)
    requires b <= e <= q && q + 2 <= |r| && r[q..] == "(" + r[q + 1..|r| - 1] + ")"
    ensures r == r[..b] + r[b..e] + (r[e..q] + ("(" + r[q + 1..|r| - 1] + ")"))
  {
    assert r == r[..b] + r[b..e] + (r[e..q] + r[q..]);
  }

  /** The trimmed title is the type, the scope in parentheses if there are any, a colon, and the body. */
  ghost predicate Reads(t: string, p: Parts, scoped: bool, w: string, gap: string, rest: string, u: Unicode) {
    && WellFormedHead(p.kind, p.scope, u) && (p.scope != "" ==> scoped)
    && t == p.kind + (if scoped then "(" + p.scope + ")" else "") + ":" + rest
    && BodyReads(rest, p.subject, p.version, w, gap, u)
  }

  lemma HeadReads(t: string, h: Head, u: Unicode) returns (scoped: bool)
    requires HeadMatch(t, h, u)
    ensures (h.scope != "" ==> scoped) && t == h.kind + (if scoped then "(" + h.scope + ")" else "") + ":" + h.rest
  {
    scoped := !(h.scope == "" && t == h.kind + ":" + h.rest);
    assert h.kind + "" == h.kind;
  }

  lemma ParseOfReading(title: string, p: Parts, scoped: bool, w: string, gap: string, rest: string, u: Unicode)
    requires Reads(Strip(title), p, scoped, w, gap, rest, u)
    ensures Parse(title, u) == p
  {
    hide Strip, SplitHead, SplitBody, WellFormedHead, BodyReads;
    assert p.kind + "" == p.kind;
    SplitHeadIff(Strip(title), Head(p.kind, p.scope, rest), u);
    BodyOfReading(rest, p.subject, p.version, w, gap, u);
  }

  lemma ReadingOfParse(title: string, u: Unicode) returns (scoped: bool, w: string, gap: string, rest: string)
    requires Parse(title, u) != NO_PARTS
    ensures Reads(Strip(title), Parse(title, u), scoped, w, gap, rest, u)
  {
    var t := Strip(title);
    hide Strip, Trimmed, IsSpace, SplitBody, SplitHead, WellFormedHead, BodyReads;
    var h := SplitHead(t, u).value;
    rest := h.rest;
    SplitHeadIff(t, h, u);
    scoped := HeadReads(t, h, u);
    RestEndsTrimmed(t, u);
    NothingToSplit(rest, u);
    w, gap := ReadingOfBody(rest, u);
  }

  /** Parsing yields these parts exactly if the trimmed title reads like this, in whatever way. */
  lemma ParsesIff(title: string, p: Parts, u: Unicode)
    requires p != NO_PARTS
    ensures Parse(title, u) == p
      <==> exists scoped, w, gap, rest :: Reads(Strip(title), p, scoped, w, gap, rest, u)
  {
    hide Parse, Strip, Reads;
    if Parse(title, u) == p {
      var scoped, w, gap, rest := ReadingOfParse(title, u);
    }
    forall scoped, w, gap, rest | Reads(Strip(title), p, scoped, w, gap, rest, u) ensures Parse(title, u) == p {
      ParseOfReading(title, p, scoped, w, gap, rest, u);
    }
  }

  /** The title printed from well-formed parts parses to exactly these parts. */
  lemma ParseOfPrint(p: Parts, u: Unicode)
    requires WellFormed(p, u)
    ensures Parse(Print(p), u) == p
  {
    hide Strip, Parse, WellFormedHead, WellFormedBody, IsSpace;
    PrintTrimmed(p, u);
    SpaceIsSpace();
    var rest := " " + PrintBody(p.subject, p.version);
    assert rest == " " + p.subject + if p.version == "" then "" else " " + ("(" + p.version + ")");
    assert Reads(Print(p), p, p.scope != "", " ", " ", rest, u);
    ParseOfReading(Print(p), p, p.scope != "", " ", " ", rest, u);
  }

  lemma SpaceIsSpace()
    ensures IsSpace(' ')
  {
  }

  lemma PrintOfNothing(u: Unicode)
    ensures Parse(Print(NO_PARTS), u) == NO_PARTS
  {
    var t := Print(NO_PARTS);
    assert t == ": ";
    assert LeftTrim(t) == t;
    assert !IsSpace(':');
    assert Strip(t) != [] ==> Strip(t)[0] == ':';
    assert !IsWordChar(':', u);
    hide Strip;
  }

  /** Parsing gives back what was printed exactly if the parts are well formed, or all empty. */
  lemma RoundTripIff(p: Parts, u: Unicode)
    ensures Parse(Print(p), u) == p <==> WellFormed(p, u) || p == NO_PARTS
  {
    hide Parse, Print, WellFormed;
    PrintOfNothing(u);
    ParseIsWellFormed(Print(p), u);
    if WellFormed(p, u) {
      ParseOfPrint(p, u);
    }
  }

  /** Printing what was parsed and parsing it again changes nothing. */
  lemma ParsePrintParse(title: string, u: Unicode)
    ensures Parse(Print(Parse(title, u)), u) == Parse(title, u)
  {
    hide Parse, Print, WellFormed;
    ParseIsWellFormed(title, u);
    RoundTripIff(Parse(title, u), u);
  }
}

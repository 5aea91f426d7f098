/** White space, trimming, word splitting and searching on strings, with Python's meaning. */
module Text {

  /** Unicode white space, as `str.isspace`, `str.strip`, `str.split` and `\s` see it. */
  predicate IsSpace(c: char) {
    var n := c as int;
    || 0x09 <= n <= 0x0D || 0x1C <= n <= 0x20 || n == 0x85 || n == 0xA0 || n == 0x1680
    || 0x2000 <= n <= 0x200A || n == 0x2028 || n == 0x2029 || n == 0x202F || n == 0x205F || n == 0x3000
  }

  predicate Blank(s: string) { forall i :: 0 <= i < |s| ==> IsSpace(s[i]) }

  /** A word as `split()` yields it. */
  predicate IsWord(w: string) { w != [] && forall i :: 0 <= i < |w| ==> !IsSpace(w[i]) }

  /** Neither starts nor ends with white space. */
  predicate Trimmed(s: string) { s == [] || (!IsSpace(s[0]) && !IsSpace(s[|s| - 1])) }

  function LeftTrim(s: string): (r: string)
    ensures |r| <= |s| && r == s[|s| - |r|..]
    ensures forall i :: 0 <= i < |s| - |r| ==> IsSpace(s[i])
    ensures r == [] || !IsSpace(r[0])
  {
    if s != [] && IsSpace(s[0]) then LeftTrim(s[1..]) else s
  }

  function RightTrim(s: string): (r: string)
    ensures |r| <= |s| && r == s[..|r|]
    ensures forall i :: |r| <= i < |s| ==> IsSpace(s[i])
    ensures r == [] || !IsSpace(r[|r| - 1])
  {
    if s != [] && IsSpace(s[|s| - 1]) then RightTrim(s[..|s| - 1]) else s
  }

  function Strip(s: string): (r: string)
    ensures Trimmed(r)
  {
    RightTrim(LeftTrim(s))
  }

  lemma {:induction false} StripOfTrimmed(s: string)
    requires Trimmed(s)
    ensures Strip(s) == s
  {
  }

  lemma {:induction false} StripEmptyIffBlank(s: string)
    ensures Strip(s) == [] <==> Blank(s)
  {
    var l := LeftTrim(s);
    if l != [] {
      assert s[|s| - |l|] == l[0];
      assert RightTrim(l) != [];
    }
  }

  function FirstNonSpace(text: string, from: nat, end: nat): (i: nat)
    requires from <= end <= |text|
    ensures from <= i <= end && (i < end ==> !IsSpace(text[i]))
    ensures forall p :: from <= p < i ==> IsSpace(text[p])
    decreases end - from
  {
    if from < end && IsSpace(text[from]) then FirstNonSpace(text, from + 1, end) else from
  }

  function LastNonSpace(text: string, from: nat, end: nat): (i: nat)
    requires from <= end <= |text|
    ensures from <= i <= end && (from < i ==> !IsSpace(text[i - 1]))
    ensures forall p :: i <= p < end ==> IsSpace(text[p])
  {
    if from < end && IsSpace(text[end - 1]) then LastNonSpace(text, from, end - 1) else end
  }

  lemma StripUnique(s: string, i: nat, j: nat)
    requires i <= j <= |s|
    requires (forall p :: 0 <= p < i ==> IsSpace(s[p])) && (forall p :: j <= p < |s| ==> IsSpace(s[p]))
    requires if i < j then !IsSpace(s[i]) && !IsSpace(s[j - 1]) else i == |s|
    ensures Strip(s) == s[i..j]
  {
    hide IsSpace, LeftTrim, RightTrim;
    var left := LeftTrim(s);
    assert left == s[i..];
    var kept := RightTrim(left);
    assert kept != [] ==> !IsSpace(s[i + |kept| - 1]);
    if i < j {
      assert left[j - 1 - i] == s[j - 1];
    }
    assert |kept| == j - i;
  }

  // ---------------------------------------------------------------------------------------------
  // split() and " ".join
  // ---------------------------------------------------------------------------------------------

  /** The length of the run of non-space characters at the start. */
  function WordLength(s: string): (n: nat)
    ensures n <= |s|
    ensures forall i :: 0 <= i < n ==> !IsSpace(s[i])
    ensures n < |s| ==> IsSpace(s[n])
  {
    if s == [] || IsSpace(s[0]) then 0 else 1 + WordLength(s[1..])
  }

  function Split(s: string): (words: seq<string>)
    ensures forall w :: w in words ==> IsWord(w)
    decreases |s|
  {
    var t := LeftTrim(s);
    if t == [] then []
    else
      var n := WordLength(t);
      [t[..n]] + Split(t[n..])
  }

  function Join(words: seq<string>): string {
    if words == [] then []
    else if |words| == 1 then words[0]
    else words[0] + " " + Join(words[1..])
  }

  lemma {:induction false} SplitOfWord(w: string, rest: string)
    requires IsWord(w) && (rest == [] || IsSpace(rest[0]))
    ensures Split(w + rest) == [w] + Split(rest)
  {
    var t := w + rest;
    assert t[0] == w[0];
    assert LeftTrim(t) == t;
    var n := WordLength(t);
    assert forall i :: 0 <= i < |w| ==> t[i] == w[i];
    assert rest != [] ==> t[|w|] == rest[0];
    assert t[..n] == w && t[n..] == rest;
  }

  lemma SplitSkipsSpace(s: string)
    requires s != [] && IsSpace(s[0])
    ensures Split(s) == Split(s[1..])
  {
  }

  lemma JoinCons(w: string, words: seq<string>)
    requires words != []
    ensures Join([w] + words) == w + (" " + Join(words))
  {
    assert ([w] + words)[1..] == words;
  }

  lemma SplitOfSingle(w: string)
    requires IsWord(w)
    ensures Split(Join([w])) == [w]
  {
    SplitOfWord(w, []);
    assert w + [] == w;
  }

  lemma SplitOfCons(w: string, words: seq<string>)
    requires IsWord(w) && words != []
    ensures Split(Join([w] + words)) == [w] + Split(Join(words))
  {
    var joined := Join(words);
    JoinCons(w, words);
    hide Split, Join;
    SplitOfWord(w, " " + joined);
    SplitSkipsSpace(" " + joined);
    assert (" " + joined)[1..] == joined;
  }

  /** Joining puts exactly one blank between two words, and nothing else. */
  lemma {:induction false} JoinConcat(a: seq<string>, b: seq<string>)
    requires a != [] && b != []
    ensures Join(a + b) == Join(a) + " " + Join(b)
    ensures |a| == 1 ==> Join(a) == a[0]
  {
    if |a| == 1 {
      assert a + b == [a[0]] + b;
      JoinCons(a[0], b);
    } else {
      assert a == [a[0]] + a[1..] && a + b == [a[0]] + (a[1..] + b);
      JoinConcat(a[1..], b);
      JoinCons(a[0], a[1..]);
      JoinCons(a[0], a[1..] + b);
    }
  }

  /** Splitting what was joined gives the words back. */
  lemma {:induction false} SplitOfJoin(words: seq<string>)
    requires forall w :: w in words ==> IsWord(w)
    ensures Split(Join(words)) == words
    decreases |words|
  {
    if words != [] {
      assert words == [words[0]] + words[1..];
      if words[1..] == [] {
        SplitOfSingle(words[0]);
      } else {
        hide Split, Join, IsWord;
        SplitOfJoin(words[1..]);
        SplitOfCons(words[0], words[1..]);
      }
    }
  }

  // ---------------------------------------------------------------------------------------------
  // rfind
  // ---------------------------------------------------------------------------------------------

  predicate OccursAt(text: string, sub: string, i: int) {
    0 <= i && i + |sub| <= |text| && text[i..i + |sub|] == sub
  }

  /** `text.rfind(sub, from, end)`: the last occurrence that lies within [from, end), or -1. */
  function RFind(text: string, sub: string, from: nat, end: nat): (r: int)
    requires from <= end <= |text|
    ensures r == -1 || (from <= r && r + |sub| <= end && OccursAt(text, sub, r))
    ensures forall i {:trigger OccursAt(text, sub, i)} ::
      from <= i && r < i && i + |sub| <= end ==> !OccursAt(text, sub, i)
    decreases end
  {
    if from + |sub| > end then -1
    else if OccursAt(text, sub, end - |sub|) then end - |sub|
    else if from == end then -1
    else RFind(text, sub, from, end - 1)
  }

  lemma OccurrenceStarts(text: string, sub: string, i: int)
    requires OccursAt(text, sub, i) && sub != []
    ensures text[i] == sub[0] && text[i + |sub| - 1] == sub[|sub| - 1]
  {
    assert text[i..i + |sub|][0] == text[i];
    assert text[i..i + |sub|][|sub| - 1] == text[i + |sub| - 1];
  }
}

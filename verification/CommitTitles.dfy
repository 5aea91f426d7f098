/** The parts of a commit title, character by character. */
module CommitTitles {
  import opened Text
  import opened ConventionalCommit

  // ---------------------------------------------------------------------------------------------
  // Characters
  // ---------------------------------------------------------------------------------------------

  /** Below 128 the digits are the ten decimal ones, and words consist of them, letters and underscores. Of the other
      characters, those that are white space are neither. */
  lemma CharactersAre(c: char, u: Unicode)
    ensures var n := c as int;
      && (IsDigit(c, u) <==> 48 <= n <= 57 || (n >= 128 && u.digit(c) && !IsSpace(c)))
      && (IsWordChar(c, u) <==>
            48 <= n <= 57 || 65 <= n <= 90 || n == 95 || 97 <= n <= 122 || (n >= 128 && u.word(c) && !IsSpace(c)))
  {
  }

  // ---------------------------------------------------------------------------------------------
  // Versions and tags
  // ---------------------------------------------------------------------------------------------

  predicate IsNumber(s: string, u: Unicode) { s != "" && forall i :: 0 <= i < |s| ==> IsDigit(s[i], u) }

  lemma DigitsUpTo(s: string, from: nat, end: nat, u: Unicode)
    requires from <= end <= |s| && (forall i :: from <= i < end ==> IsDigit(s[i], u))
    requires end == |s| || !IsDigit(s[end], u)
    ensures DigitsEnd(s, from, u) == end
  {
    hide IsDigit, DigitsEnd;
  }

  lemma NumberIs(s: string, from: nat, end: nat, u: Unicode)
    requires from < end <= |s| && forall i :: from <= i < end ==> IsDigit(s[i], u)
    ensures IsNumber(s[from..end], u)
  {
    hide IsDigit;
  }

  lemma NumberInside(s: string, from: nat, number: string, u: Unicode)
    requires from + |number| <= |s| && s[from..from + |number|] == number && IsNumber(number, u)
    requires from + |number| == |s| || !IsDigit(s[from + |number|], u)
    ensures DigitsEnd(s, from, u) == from + |number|
  {
    hide IsDigit, DigitsEnd;
    assert forall i :: from <= i < from + |number| ==> s[i] == number[i - from];
    DigitsUpTo(s, from, from + |number|, u);
  }

  lemma VersionLayout(a: string, b: string, c: string)
    ensures var v := "v" + a + "." + b + "." + c; var k, m := 1 + |a|, 2 + |a| + |b|;
      && |v| == m + 1 + |c| && v[0] == 'v' && v[1..k] == a && v[k] == '.' && v[k + 1..m] == b && v[m] == '.'
      && v[m + 1..m + 1 + |c|] == c
  {
  }

  lemma VersionOf(a: string, b: string, c: string, u: Unicode)
    requires IsNumber(a, u) && IsNumber(b, u) && IsNumber(c, u)
    ensures IsVersion("v" + a + "." + b + "." + c, u)
  {
    var v := "v" + a + "." + b + "." + c;
    assert !IsDigit('.', u) && a != "" && b != "" && c != "";
    VersionLayout(a, b, c);
    hide IsDigit, DigitsEnd, IsNumber;
    NumberInside(v, 1, a, u);
    NumberInside(v, 2 + |a|, b, u);
    NumberInside(v, 3 + |a| + |b|, c, u);
  }

  lemma NumbersOf(v: string, u: Unicode) returns (a: string, b: string, c: string)
    requires IsVersion(v, u)
    ensures IsNumber(a, u) && IsNumber(b, u) && IsNumber(c, u) && v == "v" + a + "." + b + "." + c
  {
    hide IsDigit, DigitsEnd, IsNumber;
    var k := DigitsEnd(v, 1, u);
    var m := DigitsEnd(v, k + 1, u);
    a, b, c := v[1..k], v[k + 1..m], v[m + 1..];
    NumberIs(v, 1, k, u);
    NumberIs(v, k + 1, m, u);
    NumberIs(v, m + 1, |v|, u);
    assert v[m + 1..|v|] == c;
  }

  /** A version is the letter `v` and three numbers with dots between them. */
  lemma VersionIff(v: string, u: Unicode)
    ensures IsVersion(v, u) <==>
      exists a, b, c :: IsNumber(a, u) && IsNumber(b, u) && IsNumber(c, u) && v == "v" + a + "." + b + "." + c
  {
    hide IsVersion, IsNumber;
    if IsVersion(v, u) {
      var a, b, c := NumbersOf(v, u);
    }
    forall a, b, c | IsNumber(a, u) && IsNumber(b, u) && IsNumber(c, u) && v == "v" + a + "." + b + "." + c
      ensures IsVersion(v, u)
    {
      VersionOf(a, b, c, u);
    }
  }

  /** A tag is a version in parentheses at the end of the text. */
  lemma TagIff(r: string, q: nat, u: Unicode)
    requires q <= |r|
    ensures IsTag(r, q, u) <==> exists v :: IsVersion(v, u) && r[q..] == "(" + v + ")"
  {
    hide IsVersion;
    if IsTag(r, q, u) {
      assert r[q..] == "(" + r[q + 1..|r| - 1] + ")";
    }
    forall v | IsVersion(v, u) && r[q..] == "(" + v + ")" ensures IsTag(r, q, u) {
      assert r == r[..q] + ("(" + v + ")");
      assert r[q + 1..|r| - 1] == v;
    }
  }

  /** White space around a title makes no difference. */
  lemma ParseIgnoresMargins(title: string, u: Unicode)
    ensures Parse(Strip(title), u) == Parse(title, u)
  {
    StripOfTrimmed(Strip(title));
    hide Strip, Trimmed, SplitHead, SplitBody;
  }
}

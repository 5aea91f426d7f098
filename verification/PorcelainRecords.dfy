/** What the porcelain parser reports of any text, well-formed or not. */
module PorcelainRecords {
  import opened Porcelain

  // ---------------------------------------------------------------------------------------------
  // Records
  // ---------------------------------------------------------------------------------------------

  /** NUL separates records, and pieces without any character are none. */
  lemma RecordsSplitAtNul(a: string, rest: string)
    requires NulFree(a)
    ensures Records(a + ([NUL] + rest)) == (if a == "" then [] else [a]) + Records(rest)
    ensures Records(a) == if a == "" then [] else [a]
  {
    if a == "" {
      var raw := a + ([NUL] + rest);
      assert raw[0] == NUL && raw[1..] == rest;
    } else {
      assert NulAt(a) == |a|;
      hide Records, NulFree;
      RecordsCons(a, rest);
      LastRecord(a);
    }
  }

  lemma LastRecord(a: string)
    requires a != "" && NulAt(a) == |a|
    ensures Records(a) == [a]
  {
    hide NulAt;
    assert a[..|a|] == a;
  }

  // ---------------------------------------------------------------------------------------------
  // Paths
  // ---------------------------------------------------------------------------------------------

  /** The record is taken for the source of a rename or copy: the one before it has that status, and is not itself
      such a source. */
  predicate IsSource(records: seq<string>, k: nat)
    requires k <= |records|
  {
    k > 0 && !IsSource(records, k - 1) && |records[k - 1]| >= 3 && records[k - 1][0] in {'R', 'C'}
  }

  /** The record is no source, holds a path, and says that this is new, copied or not deleted. */
  predicate Reports(records: seq<string>, k: nat)
    requires k < |records|
  {
    var r := records[k];
    && !IsSource(records, k) && |r| > 3
    && (r[0] in {'R', 'C'} || !(r[0] == 'D' || r[1] == 'D'))
  }

  function PathsUpTo(records: seq<string>, n: nat): seq<string>
    requires n <= |records|
  {
    if n == 0 then []
    else PathsUpTo(records, n - 1) + if Reports(records, n - 1) then [records[n - 1][3..]] else []
  }

  lemma KeptIffReports(records: seq<string>, k: nat)
    requires k < |records|
    ensures var r := records[k]; var skipped := IsSource(records, k) || |r| < HEADER;
      && IsSource(records, k + 1) == (!skipped && IsMove(r[0]))
      && (skipped ==> !Reports(records, k))
      && (!skipped ==> Kept(r) == if Reports(records, k) then [r[3..]] else [])
  {
  }

  lemma PathsUpToStep(records: seq<string>, n: nat, rest: seq<string>)
    requires 0 < n <= |records|
    ensures PathsUpTo(records, n) + rest
         == if IsSource(records, n - 1) || |records[n - 1]| < HEADER then PathsUpTo(records, n - 1) + rest
            else PathsUpTo(records, n - 1) + Kept(records[n - 1]) + rest
  {
    hide IsSource, Reports, Kept;
    KeptIffReports(records, n - 1);
    assert PathsUpTo(records, n - 1) + [] == PathsUpTo(records, n - 1);
  }

  lemma NothingUpTo(records: seq<string>)
    ensures PathsUpTo(records, 0) + PathsOf(records[0..], IsSource(records, 0)) == PathsOf(records, false)
  {
    assert records[0..] == records;
    hide PathsOf;
  }

  lemma {:induction false} PathsBehind(records: seq<string>, n: nat)
    requires n <= |records|
    ensures PathsUpTo(records, n) + PathsOf(records[n..], IsSource(records, n)) == PathsOf(records, false)
  {
    hide *;
    if n == 0 {
      NothingUpTo(records);
    } else {
      PathsBehind(records, n - 1);
      PathsStep(records, n - 1, IsSource(records, n - 1), PathsUpTo(records, n - 1));
      PathsUpToStep(records, n, PathsOf(records[n..], IsSource(records, n)));
      KeptIffReports(records, n - 1);
    }
  }

  /** Whatever the records are, the paths reported are those behind the first three characters of the records that
      report one, in order. */
  lemma PathsAre(records: seq<string>)
    ensures PathsOf(records, false) == PathsUpTo(records, |records|)
  {
    PathsBehind(records, |records|);
    NoPaths(records[|records|..], IsSource(records, |records|));
    hide PathsOf, PathsUpTo;
  }
}

/** The parser for `git status --porcelain=v1 -z`, and the writer of that format. */
module Porcelain {
  const HEADER := 3
  const NUL := '\0'

  /** A changed path; `source` is the old path of a rename or copy. */
  datatype Entry = Entry(x: char, y: char, path: string, source: string)

  predicate IsMove(c: char) { c == 'R' || c == 'C' }

  // ---------------------------------------------------------------------------------------------
  // Parsing
  // ---------------------------------------------------------------------------------------------

  function NulAt(raw: string): (n: nat)
    ensures n <= |raw| && (n < |raw| ==> raw[n] == NUL)
    ensures forall i :: 0 <= i < n ==> raw[i] != NUL
  {
    if raw == "" || raw[0] == NUL then 0 else 1 + NulAt(raw[1..])
  }

  /** The non-empty pieces of `raw.split("\0")`. */
  function Records(raw: string): seq<string>
    decreases |raw|
  {
    var n := NulAt(raw);
    var rest := if n == |raw| then [] else Records(raw[n + 1..]);
    if n == 0 then rest else [raw[..n]] + rest
  }

  /** What a record reports that is not skipped. */
  function Kept(r: string): seq<string>
    requires |r| >= HEADER
  {
    if (IsMove(r[0]) || (r[0] != 'D' && r[1] != 'D')) && |r| > HEADER then [r[HEADER..]] else []
  }

  function PathsOf(records: seq<string>, skip: bool): seq<string>
    decreases |records|
  {
    if records == [] then []
    else
      var r := records[0];
      if skip || |r| < HEADER then PathsOf(records[1..], false)
      else Kept(r) + PathsOf(records[1..], IsMove(r[0]))
  }

  lemma PathsStep(records: seq<string>, i: nat, skip: bool, paths: seq<string>)
    requires i < |records|
    ensures paths + PathsOf(records[i..], skip)
         == if skip || |records[i]| < HEADER then paths + PathsOf(records[i + 1..], false)
            else paths + Kept(records[i]) + PathsOf(records[i + 1..], IsMove(records[i][0]))
  {
    assert records[i..][1..] == records[i + 1..];
    hide Kept;
  }

  method ParsePorcelain(raw: string) returns (paths: seq<string>)
    ensures paths == PathsOf(Records(raw), false)
  {
    paths := [];
    if raw == "" {
      return;
    }
    var skipNext := false;
    var records := Records(raw);
    hide PathsOf, Records;
    for i := 0 to |records|
      invariant paths + PathsOf(records[i..], skipNext) == PathsOf(records, false)
    {
      var record := records[i];
      PathsStep(records, i, skipNext, paths);
      if skipNext {
        skipNext := false;
        continue;
      }
      if |record| < HEADER {
        continue;
      }
      var path := record[HEADER..];
      if IsMove(record[0]) {
        skipNext := true;
      } else if record[0] == 'D' || record[1] == 'D' {
        assert paths + Kept(record) == paths;
        continue;
      }
      if |path| > 0 {
        paths := paths + [path];
      }
    }
    NoPaths(records[|records|..], skipNext);
  }

  lemma NoPaths(records: seq<string>, skip: bool)
    requires records == []
    ensures PathsOf(records, skip) == []
  {
  }

  // ---------------------------------------------------------------------------------------------
  // The format
  // ---------------------------------------------------------------------------------------------

  predicate HasSource(e: Entry) { IsMove(e.x) || IsMove(e.y) }

  predicate NulFree(s: string) { forall i :: 0 <= i < |s| ==> s[i] != NUL }

  predicate Valid(e: Entry) {
    && e.x != NUL && e.y != NUL && e.path != "" && NulFree(e.path)
    && (HasSource(e) ==> e.source != "" && NulFree(e.source))
  }

  function Line(e: Entry): string { [e.x, e.y, ' '] + e.path }

  /** One record, and one more for the source of a rename or copy; each is ended by NUL. */
  function Write(es: seq<Entry>): string {
    if es == [] then ""
    else Line(es[0]) + ([NUL] + ((if HasSource(es[0]) then es[0].source + [NUL] else "") + Write(es[1..])))
  }

  /** The new paths of renames, copies and whatever is not a deletion. */
  function Reported(es: seq<Entry>): seq<string> {
    if es == [] then []
    else
      var e := es[0];
      (if IsMove(e.x) || (e.x != 'D' && e.y != 'D') then [e.path] else []) + Reported(es[1..])
  }

  /** The rename or copy, if it is one, is in the first status column. */
  predicate FirstColumn(x: char, y: char) { IsMove(y) ==> IsMove(x) }

  lemma RecordsCons(a: string, rest: string)
    requires a != "" && NulFree(a)
    ensures Records(a + ([NUL] + rest)) == [a] + Records(rest)
  {
    var raw := a + ([NUL] + rest);
    assert raw[|a|] == NUL && forall i :: 0 <= i < |a| ==> raw[i] == a[i];
    assert NulAt(raw) == |a|;
    assert raw[..|a|] == a && raw[|a| + 1..] == rest;
    hide NulAt;
  }

  lemma LineIsNulFree(e: Entry)
    requires Valid(e)
    ensures NulFree(Line(e)) && |Line(e)| > HEADER && Line(e)[HEADER..] == e.path
    ensures Line(e)[0] == e.x && Line(e)[1] == e.y
  {
  }

  lemma RecordsOfWritten(es: seq<Entry>)
    requires es != [] && Valid(es[0])
    ensures Records(Write(es))
         == [Line(es[0])] + ((if HasSource(es[0]) then [es[0].source] else []) + Records(Write(es[1..])))
  {
    var e, tail := es[0], Write(es[1..]);
    LineIsNulFree(e);
    hide Line, Records, NulFree;
    if HasSource(e) {
      assert e.source + [NUL] + tail == e.source + ([NUL] + tail);
      RecordsCons(e.source, tail);
      RecordsCons(Line(e), e.source + ([NUL] + tail));
    } else {
      assert "" + tail == tail;
      RecordsCons(Line(e), tail);
    }
  }

  lemma PathsOfLine(e: Entry, rest: seq<string>)
    requires Valid(e)
    ensures PathsOf([Line(e)] + rest, false)
         == (if IsMove(e.x) || (e.x != 'D' && e.y != 'D') then [e.path] else []) + PathsOf(rest, IsMove(e.x))
  {
    LineIsNulFree(e);
    hide Line, Valid;
    assert ([Line(e)] + rest)[1..] == rest;
  }

  lemma PathsOfSource(source: string, rest: seq<string>)
    ensures PathsOf([source] + rest, true) == PathsOf(rest, false)
  {
    assert ([source] + rest)[1..] == rest;
  }

  /** What is written with renames and copies in the first column is read back as exactly the paths to report. */
  lemma {:induction false} ParseOfWritten(es: seq<Entry>)
    requires forall e :: e in es ==> Valid(e) && FirstColumn(e.x, e.y)
    ensures PathsOf(Records(Write(es)), false) == Reported(es)
  {
    if es != [] {
      var e, tail := es[0], Records(Write(es[1..]));
      assert e in es;
      ParseOfWritten(es[1..]);
      RecordsOfWritten(es);
      hide Line, Records, Valid, Write, PathsOf;
      if HasSource(e) {
        PathsOfLine(e, [e.source] + tail);
        PathsOfSource(e.source, tail);
      } else {
        assert [] + tail == tail;
        PathsOfLine(e, tail);
      }
    }
  }

  /** Entries with this status are always read back. */
  ghost predicate ReadBack(x: char, y: char) {
    forall path, source :: Valid(Entry(x, y, path, source)) ==>
      PathsOf(Records(Write([Entry(x, y, path, source)])), false) == Reported([Entry(x, y, path, source)])
  }

  /** A rename or copy in the second column only: its source is read as one more entry. */
  lemma SourceIsReported(x: char, y: char)
    requires x != NUL && IsMove(y) && !IsMove(x)
    ensures var e := Entry(x, y, "new", "old path");
      Valid(e) && PathsOf(Records(Write([e])), false) == Reported([e]) + [" path"]
  {
    var e := Entry(x, y, "new", "old path");
    RecordsOfWritten([e]);
    assert Write([e][1..]) == "" && Records("") == [];
    hide Line, Records, Write;
    var tail: seq<string> := [e.source];
    assert tail + [] == tail;
    PathsOfLine(e, tail);
    SourceAsEntry();
  }

  lemma SourceAsEntry()
    ensures PathsOf(["old path"], false) == [" path"]
  {
    var r := "old path";
    assert r[HEADER..] == " path" && r[0] == 'o' && r[1] == 'l';
    var none: seq<string> := [];
    assert [r][1..] == none;
  }

  /** An entry is always read back exactly if its rename or copy, if any, is in the first column. */
  lemma ReadBackIff(x: char, y: char)
    requires x != NUL && y != NUL
    ensures ReadBack(x, y) <==> FirstColumn(x, y)
  {
    if FirstColumn(x, y) {
      forall path, source | Valid(Entry(x, y, path, source))
        ensures PathsOf(Records(Write([Entry(x, y, path, source)])), false) == Reported([Entry(x, y, path, source)])
      {
        ParseOfWritten([Entry(x, y, path, source)]);
      }
    } else {
      SourceIsReported(x, y);
      assert !ReadBack(x, y);
    }
  }
}

/** The shared state of the telemetry writer and its lock-protected sections.

    Every section that runs under the buffer lock (or inside one store transaction) is one function on
    `Shared`. A record is identified by the position at which it was enqueued, its stamp; `enqueued` and
    `lost` are history that the program does not keep. */
module TelemetryLedger {
  import opened Common

  /** One buffered `(table, record)` pair. */
  datatype Entry = Entry(stamp: nat, table: string)

  datatype Shared = Shared(
    buffer: seq<Entry>,    // the bounded deque, oldest first
    flushCount: nat,
    flushedTotal: nat,
    droppedTotal: nat,
    rows: seq<Entry>,      // committed rows in physical insertion order
    enqueued: seq<Entry>,  // history: everything ever enqueued
    lost: seq<Entry>       // history: every record counted as dropped
  )

  const EMPTY := Shared([], 0, 0, 0, [], [], [])

  // ---------------------------------------------------------------------------------------------
  // A deque with a maximum length
  // ---------------------------------------------------------------------------------------------

  /** Appending on the right of a full deque discards the leftmost entry. */
  function Append(buffer: seq<Entry>, e: Entry, maxlen: nat): seq<Entry>
    requires |buffer| <= maxlen
  {
    if maxlen == 0 then [] else if |buffer| == maxlen then buffer[1..] + [e] else buffer + [e]
  }

  /** What an append discards; a deque without capacity discards the new entry itself. */
  function Evicted(buffer: seq<Entry>, e: Entry, maxlen: nat): seq<Entry>
    requires |buffer| <= maxlen
  {
    if |buffer| < maxlen then [] else if maxlen == 0 then [e] else [buffer[0]]
  }

  /** Appending on the left of a full deque discards the rightmost entry. */
  function AppendLeft(buffer: seq<Entry>, e: Entry, maxlen: nat): (r: seq<Entry>)
    requires |buffer| <= maxlen
    ensures |r| <= maxlen
  {
    if maxlen == 0 then [] else if |buffer| == maxlen then [e] + buffer[..|buffer| - 1] else [e] + buffer
  }

  function ExtendLeft(buffer: seq<Entry>, xs: seq<Entry>, maxlen: nat): (r: seq<Entry>)
    requires |buffer| <= maxlen
    ensures |r| <= maxlen
    decreases |xs|
  {
    if xs == [] then buffer else ExtendLeft(AppendLeft(buffer, xs[0], maxlen), xs[1..], maxlen)
  }

  function Reversed(xs: seq<Entry>): seq<Entry> {
    if xs == [] then [] else [xs[|xs| - 1]] + Reversed(xs[..|xs| - 1])
  }

  lemma TakeThroughConcat(a: seq<Entry>, b: seq<Entry>, k: nat, m: nat)
    requires k <= |b| && m <= |a| + k
    ensures (a + b[..k])[..m] == (a + b)[..m]
  {
  }

  /** Putting a batch back with `extendleft(reversed(batch))` restores the batch in front of whatever
      arrived meanwhile and discards the newest entries beyond the capacity. */
  lemma {:induction false} ExtendLeftRestoresBatch(buffer: seq<Entry>, batch: seq<Entry>, maxlen: nat)
    requires |buffer| <= maxlen
    ensures ExtendLeft(buffer, Reversed(batch), maxlen) == (batch + buffer)[..Min(maxlen, |batch| + |buffer|)]
    decreases |batch|
  {
    if batch == [] {
      assert batch + buffer == buffer;
    } else {
      var init, last := batch[..|batch| - 1], batch[|batch| - 1];
      var pushed := AppendLeft(buffer, last, maxlen);
      var k, m := Min(maxlen, 1 + |buffer|), Min(maxlen, |batch| + |buffer|);
      assert pushed == ([last] + buffer)[..k];
      calc {
        ExtendLeft(buffer, Reversed(batch), maxlen);
        { assert Reversed(batch)[1..] == Reversed(init); }
        ExtendLeft(pushed, Reversed(init), maxlen);
        { ExtendLeftRestoresBatch(pushed, init, maxlen); }
        (init + ([last] + buffer)[..k])[..m];
        { TakeThroughConcat(init, [last] + buffer, k, m); }
        (init + ([last] + buffer))[..m];
        { assert init + ([last] + buffer) == batch + buffer; }
        (batch + buffer)[..m];
      }
    }
  }

  // ---------------------------------------------------------------------------------------------
  // Tables
  // ---------------------------------------------------------------------------------------------

  /** The entries of one table, in order. */
  function Rows(s: seq<Entry>, table: string): seq<Entry> {
    if s == [] then []
    else
      var rest := Rows(s[..|s| - 1], table);
      if s[|s| - 1].table == table then rest + [s[|s| - 1]] else rest
  }

  /** The tables of a batch, each once, by first appearance. */
  function Tables(s: seq<Entry>): seq<string> {
    if s == [] then []
    else
      var rest := Tables(s[..|s| - 1]);
      if s[|s| - 1].table in rest then rest else rest + [s[|s| - 1].table]
  }

  /** One insert per table: the rows of the first `n` tables of the batch, table by table. */
  function GroupedUpTo(batch: seq<Entry>, n: nat): seq<Entry>
    requires n <= |Tables(batch)|
  {
    if n == 0 then [] else GroupedUpTo(batch, n - 1) + Rows(batch, Tables(batch)[n - 1])
  }

  function Grouped(batch: seq<Entry>): seq<Entry> { GroupedUpTo(batch, |Tables(batch)|) }

  lemma {:induction false} RowsConcat(a: seq<Entry>, b: seq<Entry>, t: string)
    ensures Rows(a + b, t) == Rows(a, t) + Rows(b, t)
    decreases |b|
  {
    if b == [] {
      assert a + b == a;
    } else {
      assert (a + b)[..|a + b| - 1] == a + b[..|b| - 1];
      RowsConcat(a, b[..|b| - 1], t);
    }
  }

  lemma {:induction false} RowsMembers(s: seq<Entry>, t: string)
    ensures forall e :: e in Rows(s, t) <==> e in s && e.table == t
  {
    if s != [] {
      RowsMembers(s[..|s| - 1], t);
      assert s == s[..|s| - 1] + [s[|s| - 1]];
    }
  }

  lemma {:induction false} RowsOfRows(s: seq<Entry>, u: string, t: string)
    ensures Rows(Rows(s, u), t) == if u == t then Rows(s, t) else []
  {
    if s != [] {
      var rest, last := Rows(s[..|s| - 1], u), s[|s| - 1];
      RowsOfRows(s[..|s| - 1], u, t);
      if last.table == u {
        assert (rest + [last])[..|rest + [last]| - 1] == rest;
      }
    }
  }

  lemma {:induction false} TablesDistinct(s: seq<Entry>)
    ensures forall i, j :: 0 <= i < j < |Tables(s)| ==> Tables(s)[i] != Tables(s)[j]
    ensures forall e :: e in s ==> e.table in Tables(s)
  {
    if s != [] {
      TablesDistinct(s[..|s| - 1]);
      assert s == s[..|s| - 1] + [s[|s| - 1]];
    }
  }

  lemma RowsBehind(front: seq<Entry>, batch: seq<Entry>, u: string, t: string)
    ensures Rows(front + Rows(batch, u), t) == if u == t then Rows(front, t) + Rows(batch, t) else Rows(front, t)
  {
    RowsConcat(front, Rows(batch, u), t);
    RowsOfRows(batch, u, t);
    hide Rows;
  }

  /** `t` is one of the first `n` tables of the batch. */
  predicate Listed(batch: seq<Entry>, n: nat, t: string)
    requires n <= |Tables(batch)|
  {
    t in Tables(batch)[..n]
  }

  lemma ListedNext(batch: seq<Entry>, n: nat, t: string)
    requires 0 < n <= |Tables(batch)|
    ensures Listed(batch, n, t) <==> Listed(batch, n - 1, t) || t == Tables(batch)[n - 1]
    ensures !Listed(batch, n - 1, Tables(batch)[n - 1])
  {
    TablesDistinct(batch);
    hide Tables;
    var ts := Tables(batch);
    assert ts[..n] == ts[..n - 1] + [ts[n - 1]];
  }

  lemma NothingGrouped(batch: seq<Entry>, t: string)
    ensures Rows(GroupedUpTo(batch, 0), t) == [] && !Listed(batch, 0, t)
  {
    hide Tables;
  }

  lemma OneMoreTable(batch: seq<Entry>, n: nat)
    requires 0 < n <= |Tables(batch)|
    ensures GroupedUpTo(batch, n) == GroupedUpTo(batch, n - 1) + Rows(batch, Tables(batch)[n - 1])
  {
    hide Rows, Tables;
  }

  lemma {:induction false} RowsOfGroupedUpTo(batch: seq<Entry>, n: nat, t: string)
    requires n <= |Tables(batch)|
    ensures Rows(GroupedUpTo(batch, n), t) == if Listed(batch, n, t) then Rows(batch, t) else []
  {
    hide *;
    if n == 0 {
      NothingGrouped(batch, t);
    } else {
      var front, u := GroupedUpTo(batch, n - 1), Tables(batch)[n - 1];
      OneMoreTable(batch, n);
      RowsOfGroupedUpTo(batch, n - 1, t);
      RowsBehind(front, batch, u, t);
      ListedNext(batch, n, t);
    }
  }

  lemma {:induction false} CountInRows(s: seq<Entry>, e: Entry)
    ensures multiset(s)[e] == multiset(Rows(s, e.table))[e]
  {
    if s != [] {
      CountInRows(s[..|s| - 1], e);
      assert s == s[..|s| - 1] + [s[|s| - 1]];
    }
  }

  /** Writing table by table commits exactly the batch, and keeps the batch's order inside every table. */
  lemma GroupingKeepsRows(batch: seq<Entry>)
    ensures forall t :: Rows(Grouped(batch), t) == Rows(batch, t)
    ensures multiset(Grouped(batch)) == multiset(batch)
    ensures |Grouped(batch)| == |batch|
  {
    TablesDistinct(batch);
    forall t ensures Rows(Grouped(batch), t) == Rows(batch, t) {
      RowsOfGroupedUpTo(batch, |Tables(batch)|, t);
      RowsMembers(batch, t);
      assert Tables(batch)[..|Tables(batch)|] == Tables(batch);
      var rows := Rows(batch, t);
      assert |rows| > 0 ==> rows[0] in rows;
    }
    forall e ensures multiset(Grouped(batch))[e] == multiset(batch)[e] {
      CountInRows(batch, e);
      CountInRows(Grouped(batch), e);
    }
    assert multiset(Grouped(batch)) == multiset(batch);
    assert |multiset(Grouped(batch))| == |multiset(batch)|;
  }

  /** Where a table first appears in a batch. */
  function FirstOf(batch: seq<Entry>, table: string): (i: nat)
    ensures i <= |batch| && (i < |batch| ==> batch[i].table == table)
    ensures forall j :: 0 <= j < i ==> batch[j].table != table
  {
    if batch == [] || batch[0].table == table then 0 else 1 + FirstOf(batch[1..], table)
  }

  lemma FirstOfIs(batch: seq<Entry>, table: string, i: nat)
    requires i < |batch| && batch[i].table == table && forall j :: 0 <= j < i ==> batch[j].table != table
    ensures FirstOf(batch, table) == i
  {
    hide FirstOf;
  }

  lemma {:induction false} TablesByFirstAppearance(batch: seq<Entry>, i: nat, j: nat)
    requires i < j < |Tables(batch)|
    ensures FirstOf(batch, Tables(batch)[i]) < FirstOf(batch, Tables(batch)[j]) < |batch|
  {
    var init, last := batch[..|batch| - 1], batch[|batch| - 1];
    assert batch == init + [last];
    TableAppears(init, Tables(init)[i]);
    FirstOfIs(batch, Tables(init)[i], FirstOf(init, Tables(init)[i]));
    hide FirstOf;
    if j < |Tables(init)| {
      TablesByFirstAppearance(init, i, j);
      FirstOfIs(batch, Tables(init)[j], FirstOf(init, Tables(init)[j]));
    } else {
      TablesDistinct(init);
      forall k | 0 <= k < |init| ensures batch[k].table != last.table {
        assert batch[k] == init[k] && init[k] in init;
      }
      FirstOfIs(batch, last.table, |init|);
    }
  }

  lemma {:induction false} TableAppears(batch: seq<Entry>, t: string)
    requires t in Tables(batch)
    ensures FirstOf(batch, t) < |batch|
  {
    var init, last := batch[..|batch| - 1], batch[|batch| - 1];
    assert batch == init + [last];
    hide FirstOf;
    if t in Tables(init) {
      TableAppears(init, t);
      FirstOfIs(batch, t, FirstOf(init, t));
    }
  }

  /** The rows of a table are written together, and the tables in the order in which they first appear in the batch. */
  lemma GroupedByFirstAppearance(batch: seq<Entry>, i: nat, j: nat)
    requires i < j < |Grouped(batch)|
    ensures FirstOf(batch, Grouped(batch)[i].table) <= FirstOf(batch, Grouped(batch)[j].table)
  {
    hide Tables, FirstOf, GroupedUpTo;
    GroupedUpToByFirst(batch, |Tables(batch)|, i, j);
  }

  lemma {:induction false} GroupedUpToByFirst(batch: seq<Entry>, n: nat, i: nat, j: nat)
    requires n <= |Tables(batch)| && i < j < |GroupedUpTo(batch, n)|
    ensures FirstOf(batch, GroupedUpTo(batch, n)[i].table) <= FirstOf(batch, GroupedUpTo(batch, n)[j].table)
  {
    hide Tables, FirstOf, Rows;
    if n > 0 {
      var front, rows := GroupedUpTo(batch, n - 1), Rows(batch, Tables(batch)[n - 1]);
      if j < |front| {
        GroupedUpToByFirst(batch, n - 1, i, j);
      } else {
        RowsMembers(batch, Tables(batch)[n - 1]);
        assert rows[j - |front|] in rows;
        if i < |front| {
          var k := GroupedTable(batch, n - 1, i);
          TablesByFirstAppearance(batch, k, n - 1);
        } else {
          assert rows[i - |front|] in rows;
        }
      }
    }
  }

  lemma {:induction false} GroupedTable(batch: seq<Entry>, n: nat, i: nat) returns (k: nat)
    requires n <= |Tables(batch)| && i < |GroupedUpTo(batch, n)|
    ensures k < n && GroupedUpTo(batch, n)[i].table == Tables(batch)[k]
  {
    hide Tables, Rows;
    var front, rows := GroupedUpTo(batch, n - 1), Rows(batch, Tables(batch)[n - 1]);
    if i < |front| {
      k := GroupedTable(batch, n - 1, i);
    } else {
      k := n - 1;
      RowsMembers(batch, Tables(batch)[n - 1]);
      assert rows[i - |front|] in rows;
    }
  }

  // ---------------------------------------------------------------------------------------------
  // Sections
  // ---------------------------------------------------------------------------------------------

  /** `enqueue`: a full buffer evicts its oldest entry and counts one drop. */
  function EnqueueSection(s: Shared, table: string, maxlen: nat): Shared
    requires |s.buffer| <= maxlen
  {
    var e := Entry(|s.enqueued|, table);
    s.(buffer := Append(s.buffer, e, maxlen),
       droppedTotal := if |s.buffer| == maxlen then s.droppedTotal + 1 else s.droppedTotal,
       enqueued := s.enqueued + [e],
       lost := s.lost + Evicted(s.buffer, e, maxlen))
  }

  /** What `enqueue` does to everything: the buffer is the newest `maxlen` of the old entries and the new one, and what
      is older than that is lost and counted. */
  lemma EnqueueEvictsOldest(s: Shared, table: string, maxlen: nat)
    requires |s.buffer| <= maxlen
    ensures var all := s.buffer + [Entry(|s.enqueued|, table)]; var cut := |all| - Min(maxlen, |all|);
      EnqueueSection(s, table, maxlen)
      == s.(buffer := all[cut..], lost := s.lost + all[..cut], droppedTotal := s.droppedTotal + cut,
            enqueued := s.enqueued + [Entry(|s.enqueued|, table)])
  {
    var e := Entry(|s.enqueued|, table);
    var all := s.buffer + [e];
    if |s.buffer| < maxlen {
      assert all[0..] == all && s.lost + all[..0] == s.lost;
    } else if maxlen > 0 {
      assert all[1..] == s.buffer[1..] + [e] && all[..1] == [s.buffer[0]];
    } else {
      assert all == [e] && all[1..] == [] && all[..1] == [e];
    }
  }

  /** What `requeue` does to everything: the buffer is the oldest `maxlen` of the batch and what is buffered behind it,
      and what is newer than that is lost and counted. */
  lemma RequeueDropsNewest(s: Shared, batch: seq<Entry>, maxlen: nat)
    requires |s.buffer| <= maxlen
    ensures var all := batch + s.buffer; var kept := Min(maxlen, |all|);
      RequeueSection(s, batch, maxlen)
      == s.(buffer := all[..kept], lost := s.lost + all[kept..], droppedTotal := s.droppedTotal + (|all| - kept))
  {
    ExtendLeftRestoresBatch(s.buffer, batch, maxlen);
    hide ExtendLeft, Reversed;
  }

  /** `_drain`: the batch is the old buffer. */
  function DrainSection(s: Shared): Shared { s.(buffer := []) }

  /** `_requeue`: the batch goes back in front; entries beyond the capacity are dropped, newest first. */
  function RequeueSection(s: Shared, batch: seq<Entry>, maxlen: nat): Shared
    requires |s.buffer| <= maxlen
  {
    var overflow := |batch| - (maxlen - |s.buffer|);
    s.(buffer := ExtendLeft(s.buffer, Reversed(batch), maxlen),
       droppedTotal := if overflow > 0 then s.droppedTotal + overflow else s.droppedTotal,
       lost := s.lost + (batch + s.buffer)[Min(maxlen, |batch| + |s.buffer|)..])
  }

  /** The transaction of `_write`. */
  function CommitSection(s: Shared, batch: seq<Entry>): Shared { s.(rows := s.rows + Grouped(batch)) }

  /** The counters of `_write`, updated after the transaction. */
  function CountSection(s: Shared, batch: seq<Entry>): Shared {
    s.(flushCount := s.flushCount + 1, flushedTotal := s.flushedTotal + |batch|)
  }

  /** `_drop`. */
  function DropSection(s: Shared, batch: seq<Entry>): Shared {
    s.(droppedTotal := s.droppedTotal + |batch|, lost := s.lost + batch)
  }

  // ---------------------------------------------------------------------------------------------
  // The ledger: every record is in exactly one place, in order
  // ---------------------------------------------------------------------------------------------

  predicate Increasing(s: seq<Entry>) {
    forall i, j :: 0 <= i < j < |s| ==> s[i].stamp < s[j].stamp
  }

  ghost predicate Before(a: seq<Entry>, b: seq<Entry>) {
    forall x, y :: x in a && y in b ==> x.stamp < y.stamp
  }

  /** Every record is in exactly one place, and drops are counted exactly. */
  ghost predicate Conserved(s: Shared, held: seq<Entry>) {
    && (forall i :: 0 <= i < |s.enqueued| ==> s.enqueued[i].stamp == i)
    && multiset(s.enqueued) == multiset(s.rows) + multiset(held) + multiset(s.buffer) + multiset(s.lost)
    && s.droppedTotal == |s.lost|
  }

  /** Committed rows come before the held batch, which comes before the buffer; each keeps enqueue order. */
  ghost predicate InOrder(s: Shared, held: seq<Entry>) {
    && Increasing(held)
    && Increasing(s.buffer)
    && (forall t :: Increasing(Rows(s.rows, t)))
    && Before(s.rows, held)
    && Before(s.rows, s.buffer)
    && Before(held, s.buffer)
  }

  /** `held` is the batch a flush has drained and neither committed, requeued nor dropped. */
  ghost predicate Ledger(s: Shared, held: seq<Entry>, maxlen: nat) {
    && |s.buffer| <= maxlen
    && |held| <= maxlen
    && Conserved(s, held)
    && InOrder(s, held)
  }

  lemma Accounted(s: Shared, held: seq<Entry>)
    requires Conserved(s, held)
    ensures forall e :: e in s.enqueued <==> e in s.rows || e in held || e in s.buffer || e in s.lost
    ensures forall e :: e in s.enqueued ==> e.stamp < |s.enqueued|
    ensures |s.enqueued| == |s.rows| + |held| + |s.buffer| + |s.lost|
  {
    assert forall e :: e in s.enqueued <==> e in multiset(s.enqueued);
    assert |multiset(s.enqueued)| == |s.enqueued|;
  }

  lemma IncreasingConcat(a: seq<Entry>, b: seq<Entry>)
    requires Increasing(a) && Increasing(b) && Before(a, b)
    ensures Increasing(a + b)
  {
  }

  /** What an append does to a deque: the oldest entry of a full deque leaves, the new one arrives. */
  lemma AppendConserves(buffer: seq<Entry>, e: Entry, maxlen: nat)
    requires |buffer| <= maxlen
    ensures multiset(buffer) + multiset{e}
         == multiset(Append(buffer, e, maxlen)) + multiset(Evicted(buffer, e, maxlen))
    ensures |Append(buffer, e, maxlen)| <= maxlen
    ensures forall x :: x in Append(buffer, e, maxlen) ==> x in buffer || x == e
  {
    if 0 < |buffer| == maxlen {
      assert buffer == [buffer[0]] + buffer[1..];
      assert forall x :: x in buffer[1..] ==> x in buffer;
    }
  }

  lemma AppendKeepsOrder(buffer: seq<Entry>, e: Entry, maxlen: nat)
    requires |buffer| <= maxlen && Increasing(buffer) && Before(buffer, [e])
    ensures Increasing(Append(buffer, e, maxlen))
  {
    if 0 < |buffer| == maxlen {
      IncreasingConcat(buffer[1..], [e]);
    } else {
      IncreasingConcat(buffer, [e]);
    }
  }

  lemma EnqueueBags(all: multiset<Entry>, rest: multiset<Entry>, buffer: multiset<Entry>, lost: multiset<Entry>,
                    e: multiset<Entry>, buffer': multiset<Entry>, evicted: multiset<Entry>)
    requires all == rest + buffer + lost && buffer + e == buffer' + evicted
    ensures all + e == rest + buffer' + (lost + evicted)
  {
    assert all + e == rest + (buffer + e) + lost;
  }

  lemma EnqueueConserves(s: Shared, held: seq<Entry>, maxlen: nat, table: string)
    requires |s.buffer| <= maxlen && Conserved(s, held)
    ensures Conserved(EnqueueSection(s, table, maxlen), held)
  {
    var e := Entry(|s.enqueued|, table);
    var buffer', evicted := Append(s.buffer, e, maxlen), Evicted(s.buffer, e, maxlen);
    AppendConserves(s.buffer, e, maxlen);
    EnqueueBags(multiset(s.enqueued), multiset(s.rows) + multiset(held), multiset(s.buffer), multiset(s.lost),
                multiset{e}, multiset(buffer'), multiset(evicted));
    assert |evicted| == if |s.buffer| == maxlen then 1 else 0;
    hide Append, Evicted;
  }

  lemma EnqueueKeepsLedger(s: Shared, held: seq<Entry>, maxlen: nat, table: string)
    requires Ledger(s, held, maxlen)
    ensures Ledger(EnqueueSection(s, table, maxlen), held, maxlen)
  {
    var s', e := EnqueueSection(s, table, maxlen), Entry(|s.enqueued|, table);
    EnqueueConserves(s, held, maxlen, table);
    Accounted(s, held);
    AppendConserves(s.buffer, e, maxlen);
    assert Before(s.rows, [e]) && Before(held, [e]) && Before(s.buffer, [e]);
    AppendKeepsOrder(s.buffer, e, maxlen);
  }

  lemma DrainKeepsLedger(s: Shared, maxlen: nat)
    requires Ledger(s, [], maxlen)
    ensures Ledger(DrainSection(s), s.buffer, maxlen)
  {
  }

  /** Cutting `a + b` after `n` entries loses none of them. */
  lemma CutConserves(a: seq<Entry>, b: seq<Entry>, n: nat)
    requires n <= |a| + |b|
    ensures multiset(a) + multiset(b) == multiset((a + b)[..n]) + multiset((a + b)[n..])
    ensures forall x :: x in (a + b)[..n] ==> x in a || x in b
  {
    var all := a + b;
    assert all == all[..n] + all[n..];
    assert multiset(all) == multiset(a) + multiset(b);
    assert forall x :: x in all[..n] ==> x in all;
  }

  lemma Regroup(r: multiset<Entry>, h: multiset<Entry>, b: multiset<Entry>, l: multiset<Entry>,
                kept: multiset<Entry>, cut: multiset<Entry>)
    requires h + b == kept + cut
    ensures r + h + b + l == r + kept + (l + cut)
  {
    assert r + h + b + l == r + (h + b) + l;
  }

  lemma RequeueConserves(s: Shared, held: seq<Entry>, maxlen: nat)
    requires |s.buffer| <= maxlen && |held| <= maxlen && Conserved(s, held)
    ensures Conserved(RequeueSection(s, held, maxlen), [])
  {
    var n, s' := Min(maxlen, |held| + |s.buffer|), RequeueSection(s, held, maxlen);
    ExtendLeftRestoresBatch(s.buffer, held, maxlen);
    CutConserves(held, s.buffer, n);
    var cut := (held + s.buffer)[n..];
    assert s'.lost == s.lost + cut;
    Regroup(multiset(s.rows), multiset(held), multiset(s.buffer), multiset(s.lost), multiset(s'.buffer), multiset(cut));
  }

  lemma RequeueKeepsLedger(s: Shared, held: seq<Entry>, maxlen: nat)
    requires Ledger(s, held, maxlen)
    ensures Ledger(RequeueSection(s, held, maxlen), [], maxlen)
  {
    RequeueConserves(s, held, maxlen);
    ExtendLeftRestoresBatch(s.buffer, held, maxlen);
    IncreasingConcat(held, s.buffer);
    CutConserves(held, s.buffer, Min(maxlen, |held| + |s.buffer|));
  }

  lemma CommitKeepsLedger(s: Shared, held: seq<Entry>, maxlen: nat)
    requires Ledger(s, held, maxlen)
    ensures Ledger(CommitSection(s, held), [], maxlen)
  {
    var s' := CommitSection(s, held);
    GroupingKeepsRows(held);
    assert forall e :: e in Grouped(held) ==> e in multiset(Grouped(held));
    forall t ensures Increasing(Rows(s'.rows, t)) {
      RowsConcat(s.rows, Grouped(held), t);
      RowsMembers(s.rows, t);
      RowsMembers(held, t);
      RowsIncreasing(held, t);
      IncreasingConcat(Rows(s.rows, t), Rows(held, t));
    }
  }

  lemma DropKeepsLedger(s: Shared, held: seq<Entry>, maxlen: nat)
    requires Ledger(s, held, maxlen)
    ensures Ledger(DropSection(s, held), [], maxlen)
  {
  }

  lemma CountKeepsLedger(s: Shared, held: seq<Entry>, maxlen: nat, batch: seq<Entry>)
    requires Ledger(s, held, maxlen)
    ensures Ledger(CountSection(s, batch), held, maxlen)
  {
  }

  lemma {:induction false} RowsIncreasing(s: seq<Entry>, t: string)
    requires Increasing(s)
    ensures Increasing(Rows(s, t))
  {
    if s != [] {
      RowsIncreasing(s[..|s| - 1], t);
      RowsMembers(s[..|s| - 1], t);
    }
  }

  // ---------------------------------------------------------------------------------------------
  // Consequences
  // ---------------------------------------------------------------------------------------------

  /** `a` is obtained from `b` by deleting entries. */
  ghost predicate Subsequence(a: seq<Entry>, b: seq<Entry>)
    decreases |b|
  {
    || a == []
    || (b != [] && Subsequence(a, b[..|b| - 1]))
    || (b != [] && a[|a| - 1] == b[|b| - 1] && Subsequence(a[..|a| - 1], b[..|b| - 1]))
  }

  lemma {:induction false} IncreasingMembersAreSubsequence(a: seq<Entry>, b: seq<Entry>)
    requires Increasing(a) && Increasing(b)
    requires forall e :: e in a ==> e in b
    ensures Subsequence(a, b)
    decreases |b|
  {
    if a != [] {
      var x := a[|a| - 1];
      assert x in b;
      var b', y := b[..|b| - 1], b[|b| - 1];
      assert b == b' + [y];
      var a' := if x == y then a[..|a| - 1] else a;
      forall e | e in a' ensures e in b' {
        assert e in a;
        assert e.stamp < y.stamp;
      }
      IncreasingMembersAreSubsequence(a', b');
    }
  }

  /** For each table, the committed rows followed by the held and the buffered ones never depart from the
      order in which that table's records were enqueued. */
  lemma TableOrderIsKept(s: Shared, held: seq<Entry>, maxlen: nat, t: string)
    requires Ledger(s, held, maxlen)
    ensures Subsequence(Rows(s.rows, t) + Rows(held, t) + Rows(s.buffer, t), Rows(s.enqueued, t))
  {
    var committed, drained, waiting := Rows(s.rows, t), Rows(held, t), Rows(s.buffer, t);
    Accounted(s, held);
    RowsMembers(s.rows, t);
    RowsMembers(held, t);
    RowsMembers(s.buffer, t);
    RowsMembers(s.enqueued, t);
    RowsIncreasing(held, t);
    RowsIncreasing(s.buffer, t);
    RowsIncreasing(s.enqueued, t);
    IncreasingConcat(committed, drained);
    IncreasingConcat(committed + drained, waiting);
    IncreasingMembersAreSubsequence(committed + drained + waiting, Rows(s.enqueued, t));
  }

  lemma {:induction false} StampedEntriesAreDistinct(s: seq<Entry>, e: Entry)
    requires forall i :: 0 <= i < |s| ==> s[i].stamp == i
    ensures multiset(s)[e] <= 1
    ensures multiset(s)[e] == 1 ==> e.stamp < |s|
  {
    if s != [] {
      StampedEntriesAreDistinct(s[..|s| - 1], e);
      assert s == s[..|s| - 1] + [s[|s| - 1]];
    }
  }

  /** No record is committed twice, and none is both committed and counted as dropped. */
  lemma CommittedAtMostOnce(s: Shared, held: seq<Entry>, maxlen: nat, e: Entry)
    requires Ledger(s, held, maxlen)
    ensures multiset(s.rows)[e] + multiset(held)[e] + multiset(s.buffer)[e] + multiset(s.lost)[e] <= 1
  {
    StampedEntriesAreDistinct(s.enqueued, e);
  }
}

/** What enqueueing and flushing make of the buffer, the rows and the counters, record by record. */
module TelemetryFlush {
  import opened Common
  import opened TelemetryLedger
  import opened BufferedWriter

  /** The entries of records enqueued one after the other, the first of them with stamp `n`. */
  function Stamped(n: nat, tables: seq<string>): (r: seq<Entry>)
    ensures |r| == |tables| && forall i :: 0 <= i < |r| ==> r[i] == Entry(n + i, tables[i])
  {
    if tables == [] then [] else Stamped(n, tables[..|tables| - 1]) + [Entry(n + |tables| - 1, tables[|tables| - 1])]
  }

  /** The newest entries that fit into the buffer. */
  function Newest(all: seq<Entry>, maxlen: nat): seq<Entry> { all[Older(all, maxlen)..] }

  /** How many entries are too many. */
  function Older(all: seq<Entry>, maxlen: nat): (n: nat)
    ensures n <= |all|
  {
    if |all| > maxlen then |all| - maxlen else 0
  }

  lemma TailOfTail(all: seq<Entry>, i: nat, e: Entry, j: nat)
    requires i <= |all| && j <= |all| - i + 1
    ensures (all[i..] + [e])[j..] == (all + [e])[i + j..]
    ensures (all + [e])[..i + j] == all[..i] + (all[i..] + [e])[..j]
  {
  }

  /** What enqueueing several records does to everything: the buffer is the newest of all that was buffered and that
      arrived, and what is older is lost, oldest first, and counted. */
  lemma {:induction false} EnqueueAllKeepsNewest(c: Config, s: Shared, tables: seq<string>)
    requires |s.buffer| <= c.maxlen
    ensures var added := Stamped(|s.enqueued|, tables); var all := s.buffer + added; var cut := Older(all, c.maxlen);
      EnqueueAll(c, s, tables)
      == s.(buffer := all[cut..], lost := s.lost + all[..cut], droppedTotal := s.droppedTotal + cut,
            enqueued := s.enqueued + added)
  {
    if tables == [] {
      assert s.buffer + [] == s.buffer && s.enqueued + [] == s.enqueued && s.lost + [] == s.lost;
      assert s.buffer[..0] == [] && s.buffer[0..] == s.buffer;
    } else {
      var init, t := tables[..|tables| - 1], tables[|tables| - 1];
      EnqueueAllKeepsNewest(c, s, init);
      var r := EnqueueAll(c, s, init);
      EnqueueEvictsOldest(r, t, c.maxlen);
      var added, e := Stamped(|s.enqueued|, init), Entry(|r.enqueued|, t);
      hide EnqueueSection, EnqueueAll, Older;
      assert Stamped(|s.enqueued|, tables) == added + [e];
      CutAgain(s.buffer + added, e, c.maxlen, s.lost);
      Associative(s.buffer, added, e);
      Associative(s.enqueued, added, e);
    }
  }

  /** Cutting the oldest, adding one and cutting again is adding first and cutting once. */
  lemma CutAgain(all: seq<Entry>, e: Entry, maxlen: nat, lost: seq<Entry>)
    ensures var i := Older(all, maxlen); var next := all[i..] + [e]; var j := |next| - Min(maxlen, |next|);
      && i + j == Older(all + [e], maxlen) && next[j..] == (all + [e])[i + j..]
      && lost + all[..i] + next[..j] == lost + (all + [e])[..i + j]
  {
    var i := Older(all, maxlen);
    var next := all[i..] + [e];
    var j := |next| - Min(maxlen, |next|);
    TailOfTail(all, i, e, j);
    assert lost + all[..i] + next[..j] == lost + (all[..i] + next[..j]);
  }

  lemma Associative(a: seq<Entry>, b: seq<Entry>, e: Entry)
    ensures a + (b + [e]) == a + b + [e]
  {
  }

  /** The state while a write of the drained buffer runs: only what arrives meanwhile is buffered. */
  lemma WritingIs(c: Config, s: Shared, o: Others)
    requires |s.buffer| <= c.maxlen
    ensures var added := Stamped(|s.enqueued|, o.writing); var cut := Older(added, c.maxlen);
      WhileWriting(c, s, o)
      == s.(buffer := added[cut..], lost := s.lost + added[..cut], droppedTotal := s.droppedTotal + cut,
            enqueued := s.enqueued + added)
  {
    EnqueueAllKeepsNewest(c, DrainSection(s), o.writing);
    assert [] + Stamped(|s.enqueued|, o.writing) == Stamped(|s.enqueued|, o.writing);
    hide EnqueueAll, Stamped;
  }

  lemma LastWrite(c: Config, s: Shared, k: nat, store: nat -> Attempt, others: nat -> Others)
    requires 0 < |s.buffer| <= c.maxlen && k <= c.retries && (store(k) != Fails(Locked) || k == c.retries)
    ensures var d := WhileWriting(c, s, others(k));
      FlushFrom(c, s, k, store, others)
      == if store(k).Proceed? && AllKnown(c, s.buffer) then (CountSection(CommitSection(d, s.buffer), s.buffer), k + 1)
         else (DropSection(d, s.buffer), k + 1)
  {
    hide AllKnown, WhileWriting, AfterSleep, CommitSection, CountSection, DropSection;
  }

  lemma LockedWrite(c: Config, s: Shared, k: nat, store: nat -> Attempt, others: nat -> Others)
    requires 0 < |s.buffer| <= c.maxlen && k < c.retries && store(k) == Fails(Locked)
    ensures FlushFrom(c, s, k, store, others)
         == FlushFrom(c, AfterSleep(c, WhileWriting(c, s, others(k)), s.buffer, others(k)), k + 1, store, others)
  {
    hide AllKnown, WhileWriting, AfterSleep, CommitSection, CountSection, DropSection;
  }

  /** Committed and counted: `batch` behind the rows, table by table, and nothing else. */
  ghost predicate Committed(d: Shared, r: Shared, batch: seq<Entry>) {
    && (forall t :: Rows(r.rows, t) == Rows(d.rows, t) + Rows(batch, t)) && |r.rows| == |d.rows| + |batch|
    && r == d.(rows := r.rows, flushCount := d.flushCount + 1, flushedTotal := d.flushedTotal + |batch|)
  }

  lemma CommitIs(d: Shared, batch: seq<Entry>)
    ensures Committed(d, CountSection(CommitSection(d, batch), batch), batch)
  {
    GroupingKeepsRows(batch);
    CommittedRows(d, batch);
    hide Rows, Grouped;
  }

  /** A write that is not retried ends the flush. If the store takes it, the batch is committed, table by table, and
      counted; otherwise the batch is lost and counted. Either way what arrived while it ran stays buffered. */
  lemma LastWriteDecides(c: Config, s: Shared, k: nat, store: nat -> Attempt, others: nat -> Others)
    requires 0 < |s.buffer| <= c.maxlen && k <= c.retries && (store(k) != Fails(Locked) || k == c.retries)
    ensures var (r, writes) := FlushFrom(c, s, k, store, others);
      var added := Stamped(|s.enqueued|, others(k).writing); var cut := Older(added, c.maxlen);
      var d := s.(buffer := added[cut..], lost := s.lost + added[..cut], droppedTotal := s.droppedTotal + cut,
                  enqueued := s.enqueued + added);
      && writes == k + 1
      && if store(k).Proceed? && forall e :: e in s.buffer ==> e.table in c.known then Committed(d, r, s.buffer)
         else r == d.(lost := d.lost + s.buffer, droppedTotal := d.droppedTotal + |s.buffer|)
  {
    hide WhileWriting, Stamped, FlushFrom, CommitSection, CountSection, Committed;
    WritingIs(c, s, others(k));
    LastWrite(c, s, k, store, others);
    CommitIs(WhileWriting(c, s, others(k)), s.buffer);
  }

  /** The state when a flush drains again: of the batch and what arrived during its write the oldest that fit, and of
      these and what arrived during the sleep the newest. */
  lemma AfterSleepIs(c: Config, d: Shared, batch: seq<Entry>, o: Others)
    requires |d.buffer| <= c.maxlen
    ensures var back := (batch + d.buffer)[..Min(c.maxlen, |batch + d.buffer|)];
      var q := AfterSleep(c, d, batch, o);
      && q.buffer == Newest(back + Stamped(|d.enqueued|, o.sleeping), c.maxlen)
      && q.rows == d.rows && q.flushCount == d.flushCount && q.flushedTotal == d.flushedTotal
  {
    RequeueDropsNewest(d, batch, c.maxlen);
    EnqueueAllKeepsNewest(c, RequeueSection(d, batch, c.maxlen), o.sleeping);
    hide Stamped, EnqueueAll, RequeueSection;
  }

  /** A write that meets a lock is tried again, with what is then in the buffer. */
  lemma LockedWriteIsRetried(c: Config, s: Shared, k: nat, store: nat -> Attempt, others: nat -> Others)
    returns (q: Shared)
    requires 0 < |s.buffer| <= c.maxlen && k < c.retries && store(k) == Fails(Locked)
    ensures var during := Newest(Stamped(|s.enqueued|, others(k).writing), c.maxlen);
      var back := (s.buffer + during)[..Min(c.maxlen, |s.buffer + during|)];
      && q.buffer == Newest(back + Stamped(|s.enqueued| + |others(k).writing|, others(k).sleeping), c.maxlen)
      && 0 < |q.buffer| <= c.maxlen
      && q.rows == s.rows && q.flushCount == s.flushCount && q.flushedTotal == s.flushedTotal
    ensures FlushFrom(c, s, k, store, others) == FlushFrom(c, q, k + 1, store, others)
  {
    hide Stamped, WhileWriting, AfterSleep, FlushFrom;
    var d := WhileWriting(c, s, others(k));
    q := AfterSleep(c, d, s.buffer, others(k));
    WritingIs(c, s, others(k));
    AfterSleepIs(c, d, s.buffer, others(k));
    RedrainFindsABatch(c, d, s.buffer, others(k));
    LockedWrite(c, s, k, store, others);
  }

  /** A flush of a non-empty buffer tries writes until one is not refused by a lock, or no retry is left. */
  lemma {:induction false} WritesUntilNotLocked(c: Config, s: Shared, k: nat, store: nat -> Attempt,
                                                others: nat -> Others)
    requires 0 < |s.buffer| <= c.maxlen && k <= c.retries
    ensures var writes := FlushFrom(c, s, k, store, others).1;
      && k < writes <= c.retries + 1
      && (forall i :: k <= i < writes - 1 ==> store(i) == Fails(Locked))
      && (writes <= c.retries ==> store(writes - 1) != Fails(Locked))
    decreases c.retries - k
  {
    hide *;
    if store(k) != Fails(Locked) || k == c.retries {
      LastWriteDecides(c, s, k, store, others);
    } else {
      var q := LockedWriteIsRetried(c, s, k, store, others);
      WritesUntilNotLocked(c, q, k + 1, store, others);
    }
  }

  /** Nothing to flush, nothing done. */
  lemma EmptyFlush(c: Config, s: Shared, k: nat, store: nat -> Attempt, others: nat -> Others)
    requires s.buffer == [] && k <= c.retries
    ensures FlushFrom(c, s, k, store, others) == (s, k)
  {
  }
}

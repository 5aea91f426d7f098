/** The telemetry writer object: its lock-protected sections and one whole flush.

    What the database answers to each write attempt, and what other threads enqueue while a write runs and while the
    flush sleeps after it, are parameters. Several flushing threads are the subject of `TelemetryProtocol`. */
module BufferedWriter {
  import opened Common
  import opened TelemetryLedger

  datatype Fault = Locked | OtherSqlite | StoreRefused

  datatype WriteResult = Written | Raised(fault: Fault)

  /** What the store does with each attempt; `None` lets the transaction run. */
  datatype Attempt = Proceed | Fails(fault: Fault)

  datatype Config = Config(maxlen: nat, retries: nat, known: set<string>)

  predicate AllKnown(c: Config, batch: seq<Entry>) { forall e :: e in batch ==> e.table in c.known }

  /** `insert_many` refuses a table it does not know, which fails the whole transaction. */
  function Outcome(c: Config, batch: seq<Entry>, a: Attempt): WriteResult {
    if a.Fails? then Raised(a.fault) else if AllKnown(c, batch) then Written else Raised(StoreRefused)
  }

  predicate Retried(c: Config, r: WriteResult, attempt: nat) {
    r == Raised(Locked) && attempt < c.retries
  }

  /** Records enqueued one after the other. */
  function EnqueueAll(c: Config, s: Shared, tables: seq<string>): (r: Shared)
    requires |s.buffer| <= c.maxlen
    ensures |r.buffer| <= c.maxlen
  {
    if tables == [] then s
    else EnqueueSection(EnqueueAll(c, s, tables[..|tables| - 1]), tables[|tables| - 1], c.maxlen)
  }

  /** What other threads enqueue during one attempt: between the drain and the end of the write, and between the
      requeue and the next drain. */
  datatype Others = Others(writing: seq<string>, sleeping: seq<string>)

  /** What a flush has drained, and the state when its write has ended. */
  function WhileWriting(c: Config, s: Shared, o: Others): (r: Shared)
    requires |s.buffer| <= c.maxlen
    ensures |r.buffer| <= c.maxlen
  {
    EnqueueAll(c, DrainSection(s), o.writing)
  }

  /** The state when a flush that met a lock drains again; `d` is the state when its write has ended. */
  function AfterSleep(c: Config, d: Shared, batch: seq<Entry>, o: Others): (r: Shared)
    requires |d.buffer| <= c.maxlen
    ensures |r.buffer| <= c.maxlen
  {
    EnqueueAll(c, RequeueSection(d, batch, c.maxlen), o.sleeping)
  }

  /** A flush from attempt `k` on: the state it leaves and the number of writes it has tried by then. */
  function FlushFrom(c: Config, s: Shared, k: nat, store: nat -> Attempt, others: nat -> Others): (Shared, nat)
    requires |s.buffer| <= c.maxlen && k <= c.retries
    decreases c.retries - k
  {
    var batch := s.buffer;
    if batch == [] then (DrainSection(s), k)
    else
      var d, r := WhileWriting(c, s, others(k)), Outcome(c, batch, store(k));
      if r == Written then (CountSection(CommitSection(d, batch), batch), k + 1)
      else if Retried(c, r, k) then FlushFrom(c, AfterSleep(c, d, batch, others(k)), k + 1, store, others)
      else (DropSection(d, batch), k + 1)
  }

  // ---------------------------------------------------------------------------------------------

  class TelemetryWriter {
    const c: Config
    const batchSize: nat
    var buffer: seq<Entry>
    var wake: bool
    var flushCount: nat
    var flushedTotal: nat
    var droppedTotal: nat
    var rows: seq<Entry>
    ghost var enqueued: seq<Entry>
    ghost var lost: seq<Entry>
    var stamps: nat  // how many records were enqueued so far: the next stamp

    ghost function State(): Shared
      reads this
    {
      Shared(buffer, flushCount, flushedTotal, droppedTotal, rows, enqueued, lost)
    }

    ghost predicate Valid()
      reads this
    {
      |buffer| <= c.maxlen && stamps == |enqueued|
    }

    constructor (c: Config, batchSize: nat)
      ensures Valid() && State() == EMPTY && this.c == c && this.batchSize == batchSize && !wake
    {
      this.c, this.batchSize := c, batchSize;
      buffer, wake := [], false;
      flushCount, flushedTotal, droppedTotal, rows := 0, 0, 0, [];
      enqueued, lost, stamps := [], [], 0;
    }

    method Enqueue(table: string)
      requires Valid()
      modifies this
      ensures Valid() && State() == EnqueueSection(old(State()), table, c.maxlen)
      ensures wake == (old(wake) || |buffer| >= batchSize)
      ensures var all := old(buffer) + [Entry(old(stamps), table)]; buffer == all[|all| - Min(c.maxlen, |all|)..]
    {
      EnqueueEvictsOldest(State(), table, c.maxlen);
      var e := Entry(stamps, table);
      if |buffer| == c.maxlen {
        droppedTotal := droppedTotal + 1;
      }
      lost := lost + Evicted(buffer, e, c.maxlen);
      buffer := Append(buffer, e, c.maxlen);
      enqueued, stamps := enqueued + [e], stamps + 1;
      if |buffer| >= batchSize {
        wake := true;
      }
    }

    method Drain() returns (batch: seq<Entry>)
      requires Valid()
      modifies this
      ensures Valid() && batch == old(buffer) && State() == DrainSection(old(State())) && wake == old(wake)
    {
      batch := buffer;
      buffer := [];
    }

    /** `extendleft(reversed(batch))` */
    method PushFront(batch: seq<Entry>)
      requires |buffer| <= c.maxlen
      modifies `buffer
      ensures buffer == ExtendLeft(old(buffer), Reversed(batch), c.maxlen)
    {
      var i := |batch|;
      assert batch[..i] == batch;
      hide ExtendLeft, Reversed, AppendLeft;
      while i > 0
        invariant i <= |batch| && |buffer| <= c.maxlen
        invariant ExtendLeft(buffer, Reversed(batch[..i]), c.maxlen)
               == ExtendLeft(old(buffer), Reversed(batch), c.maxlen)
      {
        i := i - 1;
        PushNext(buffer, batch, i, c.maxlen);
        buffer := AppendLeft(buffer, batch[i], c.maxlen);
      }
      NothingToPush(buffer, batch, c.maxlen);
    }

    method Requeue(batch: seq<Entry>)
      requires Valid()
      modifies this
      ensures Valid() && State() == RequeueSection(old(State()), batch, c.maxlen) && wake == old(wake)
      ensures var all := batch + old(buffer); buffer == all[..Min(c.maxlen, |all|)]
    {
      RequeueDropsNewest(State(), batch, c.maxlen);
      var overflow := |batch| - (c.maxlen - |buffer|);
      if overflow > 0 {
        droppedTotal := droppedTotal + overflow;
      }
      lost := lost + (batch + buffer)[Min(c.maxlen, |batch| + |buffer|)..];
      PushFront(batch);
    }

    /** The batch's rows by table, with the tables in order of first appearance. */
    method Group(batch: seq<Entry>) returns (keys: seq<string>, groups: map<string, seq<Entry>>)
      ensures keys == Tables(batch)
      ensures forall t :: t in keys ==> t in groups && groups[t] == Rows(batch, t)
    {
      keys, groups := [], map[];
      for i := 0 to |batch|
        invariant keys == Tables(batch[..i])
        invariant forall t :: t in groups <==> t in keys
        invariant forall t :: Rows(batch[..i], t) == if t in groups then groups[t] else []
      {
        assert batch[..i + 1][..i] == batch[..i];
        var t := batch[i].table;
        if t !in groups {
          keys, groups := keys + [t], groups[t := []];
        }
        groups := groups[t := groups[t] + [batch[i]]];
      }
      assert batch[..|batch|] == batch;
    }

    /** One `insert_many` per table inside one transaction, which an unknown table rolls back. */
    method InsertGroups(batch: seq<Entry>, keys: seq<string>, groups: map<string, seq<Entry>>) returns (ok: bool)
      requires keys == Tables(batch)
      requires forall t :: t in keys ==> t in groups && groups[t] == Rows(batch, t)
      modifies `rows
      ensures ok <==> forall t :: t in keys ==> t in c.known
      ensures rows == if ok then old(rows) + Grouped(batch) else old(rows)
    {
      var before, k := rows, 0;
      hide Rows, Tables;
      while k < |keys|
        invariant k <= |keys|
        invariant rows == before + GroupedUpTo(batch, k)
        invariant forall i :: 0 <= i < k ==> keys[i] in c.known
      {
        if keys[k] !in c.known {
          rows := before;  // rollback
          return false;
        }
        rows := rows + groups[keys[k]];
        k := k + 1;
      }
      ok := true;
    }

    /** Groups the batch by table and writes it in one transaction; the counters follow the commit. */
    method Write(batch: seq<Entry>, attempt: Attempt) returns (r: WriteResult)
      requires Valid()
      modifies this
      ensures Valid() && r == Outcome(c, batch, attempt) && wake == old(wake)
      ensures State() == if r == Written then CountSection(CommitSection(old(State()), batch), batch) else old(State())
    {
      var keys, groups := Group(batch);
      if attempt.Fails? {
        return Raised(attempt.fault);
      }
      KnownByTable(c, batch);
      var ok := InsertGroups(batch, keys, groups);
      if !ok {
        return Raised(StoreRefused);
      }
      flushCount, flushedTotal := flushCount + 1, flushedTotal + |batch|;
      r := Written;
    }

    method Drop(batch: seq<Entry>)
      requires Valid()
      modifies this
      ensures Valid() && State() == DropSection(old(State()), batch) && wake == old(wake)
    {
      droppedTotal := droppedTotal + |batch|;
      lost := lost + batch;
    }

    /** What other threads enqueue while this one writes or sleeps. */
    method Arrive(tables: seq<string>)
      requires Valid()
      modifies this
      ensures Valid() && State() == EnqueueAll(c, old(State()), tables)
    {
      for i := 0 to |tables|
        invariant Valid() && State() == EnqueueAll(c, old(State()), tables[..i])
      {
        Enqueue(tables[i]);
        assert tables[..i + 1][..i] == tables[..i];
      }
      assert tables[..|tables|] == tables;
    }

    method Flush(store: nat -> Attempt, others: nat -> Others) returns (writes: nat)
      requires Valid()
      modifies this
      ensures Valid() && (State(), writes) == FlushFrom(c, old(State()), 0, store, others)
    {
      var batch := Drain();
      if batch == [] {
        return 0;
      }
      var attempt := 0;
      ghost var before := old(State());
      while true
        invariant attempt <= c.retries && Valid() && batch != []
        invariant |before.buffer| <= c.maxlen && batch == before.buffer && State() == DrainSection(before)
        invariant FlushFrom(c, before, attempt, store, others) == FlushFrom(c, old(State()), 0, store, others)
        decreases c.retries - attempt
      {
        Arrive(others(attempt).writing);
        var r := Write(batch, store(attempt));
        if r == Written {
          return attempt + 1;
        }
        if r == Raised(Locked) && attempt < c.retries {
          Requeue(batch);
          Arrive(others(attempt).sleeping);
          before := State();
          attempt := attempt + 1;
          batch := Drain();
          if batch == [] {
            return attempt;
          }
          continue;
        }
        Drop(batch);
        return attempt + 1;
      }
    }
  }

  lemma PushNext(buffer: seq<Entry>, batch: seq<Entry>, i: nat, maxlen: nat)
    requires |buffer| <= maxlen && i < |batch|
    ensures ExtendLeft(buffer, Reversed(batch[..i + 1]), maxlen)
         == ExtendLeft(AppendLeft(buffer, batch[i], maxlen), Reversed(batch[..i]), maxlen)
  {
    assert batch[..i + 1][..i] == batch[..i];
    assert Reversed(batch[..i + 1])[1..] == Reversed(batch[..i]);
    hide AppendLeft, Reversed;
  }

  lemma NothingToPush(buffer: seq<Entry>, batch: seq<Entry>, maxlen: nat)
    requires |buffer| <= maxlen
    ensures ExtendLeft(buffer, Reversed(batch[..0]), maxlen) == buffer
  {
  }

  lemma {:induction false} TablesOccur(s: seq<Entry>, t: string)
    requires t in Tables(s)
    ensures exists e :: e in s && e.table == t
  {
    var rest, last := Tables(s[..|s| - 1]), s[|s| - 1];
    if t in rest {
      TablesOccur(s[..|s| - 1], t);
      var e :| e in s[..|s| - 1] && e.table == t;
      assert e in s;
    } else {
      assert last.table == t && last in s;
    }
  }

  lemma KnownByTable(c: Config, batch: seq<Entry>)
    ensures AllKnown(c, batch) <==> forall t :: t in Tables(batch) ==> t in c.known
  {
    TablesDistinct(batch);
    forall t | t in Tables(batch) ensures exists e :: e in batch && e.table == t {
      TablesOccur(batch, t);
    }
  }

  // ---------------------------------------------------------------------------------------------
  // What one flush achieves
  // ---------------------------------------------------------------------------------------------

  /** Between flushes nothing is held, and the counter of flushed records is the number of rows. */
  ghost predicate Quiet(c: Config, s: Shared) {
    Ledger(s, [], c.maxlen) && s.flushedTotal == |s.rows|
  }

  ghost predicate Settled(s: Shared, e: Entry) { e in s.rows || e in s.lost }

  lemma {:induction false} ArrivalsKeepLedger(c: Config, s: Shared, held: seq<Entry>, tables: seq<string>)
    requires Ledger(s, held, c.maxlen)
    ensures var s' := EnqueueAll(c, s, tables);
      && Ledger(s', held, c.maxlen)
      && s.enqueued <= s'.enqueued && |s'.enqueued| == |s.enqueued| + |tables|
      && s'.rows == s.rows && s'.flushedTotal == s.flushedTotal
  {
    if tables != [] {
      var init := tables[..|tables| - 1];
      hide Ledger;
      ArrivalsKeepLedger(c, s, held, init);
      assert |EnqueueAll(c, s, init).buffer| <= c.maxlen;
      EnqueueKeepsLedger(EnqueueAll(c, s, init), held, c.maxlen, tables[|tables| - 1]);
    }
  }

  /** Whatever arrives is newer than what has been enqueued before. */
  lemma {:induction false} ArrivalsAreNew(c: Config, s: Shared, tables: seq<string>)
    requires |s.buffer| <= c.maxlen
    ensures |EnqueueAll(c, s, tables).enqueued| >= |s.enqueued|
    ensures forall e :: e in EnqueueAll(c, s, tables).buffer ==> e in s.buffer || e.stamp >= |s.enqueued|
  {
    if tables != [] {
      var r, t := EnqueueAll(c, s, tables[..|tables| - 1]), tables[|tables| - 1];
      ArrivalsAreNew(c, s, tables[..|tables| - 1]);
      AppendConserves(r.buffer, Entry(|r.enqueued|, t), c.maxlen);
      hide Append;
    }
  }

  /** From `s` to `s'` every record of `s` has been settled, and the accounts balance. */
  ghost predicate Delivered(c: Config, s: Shared, s': Shared) {
    && Quiet(c, s')
    && s.enqueued <= s'.enqueued
    && (forall e :: e in s.enqueued ==> Settled(s', e))
    && |s'.enqueued| == |s'.buffer| + s'.flushedTotal + s'.droppedTotal
  }

  /** A state without older records in its buffer has settled them. */
  lemma OldRecordsAreSettled(c: Config, s: Shared, s': Shared)
    requires Quiet(c, s) && Quiet(c, s') && s.enqueued <= s'.enqueued
    requires forall e :: e in s'.buffer ==> e.stamp >= |s.enqueued|
    ensures Delivered(c, s, s')
  {
    Accounted(s, []);
    Accounted(s', []);
    hide Ledger, Increasing, InOrder;
    forall e | e in s.enqueued ensures Settled(s', e) {
      assert e in s'.enqueued && e.stamp < |s.enqueued|;
    }
  }

  lemma EmptyBufferDelivers(c: Config, s: Shared)
    requires Quiet(c, s) && s.buffer == []
    ensures Delivered(c, s, s)
  {
    Accounted(s, []);
  }

  /** While a write runs, the drained batch is held and only new records are buffered. */
  lemma WritingHolds(c: Config, s: Shared, o: Others)
    requires Quiet(c, s)
    ensures var d := WhileWriting(c, s, o);
      && Ledger(d, s.buffer, c.maxlen) && s.enqueued <= d.enqueued
      && d.rows == s.rows && d.flushedTotal == s.flushedTotal
      && forall e :: e in d.buffer ==> e.stamp >= |s.enqueued|
  {
    DrainKeepsLedger(s, c.maxlen);
    ArrivalsKeepLedger(c, DrainSection(s), s.buffer, o.writing);
    ArrivalsAreNew(c, DrainSection(s), o.writing);
    hide Ledger, EnqueueAll;
  }

  lemma WriteDelivers(c: Config, s: Shared, o: Others)
    requires Quiet(c, s)
    ensures Delivered(c, s, CountSection(CommitSection(WhileWriting(c, s, o), s.buffer), s.buffer))
  {
    var d, batch := WhileWriting(c, s, o), s.buffer;
    WritingHolds(c, s, o);
    CommitKeepsLedger(d, batch, c.maxlen);
    CountKeepsLedger(CommitSection(d, batch), [], c.maxlen, batch);
    GroupingKeepsRows(batch);
    hide Ledger, Grouped, WhileWriting, Delivered;
    OldRecordsAreSettled(c, s, CountSection(CommitSection(d, batch), batch));
  }

  lemma DropDelivers(c: Config, s: Shared, o: Others)
    requires Quiet(c, s)
    ensures Delivered(c, s, DropSection(WhileWriting(c, s, o), s.buffer))
  {
    var d, batch := WhileWriting(c, s, o), s.buffer;
    WritingHolds(c, s, o);
    DropKeepsLedger(d, batch, c.maxlen);
    hide Ledger, WhileWriting, Delivered;
    OldRecordsAreSettled(c, s, DropSection(d, batch));
  }

  lemma SleepingKeepsQuiet(c: Config, s: Shared, o: Others)
    requires Quiet(c, s)
    ensures var r := AfterSleep(c, WhileWriting(c, s, o), s.buffer, o); Quiet(c, r) && s.enqueued <= r.enqueued
  {
    var d := WhileWriting(c, s, o);
    WritingHolds(c, s, o);
    RequeueKeepsLedger(d, s.buffer, c.maxlen);
    ArrivalsKeepLedger(c, RequeueSection(d, s.buffer, c.maxlen), [], o.sleeping);
    hide Ledger, EnqueueAll, WhileWriting;
  }

  lemma DeliveredLater(c: Config, s: Shared, q: Shared, s': Shared)
    requires s.enqueued <= q.enqueued && Delivered(c, q, s')
    ensures Delivered(c, s, s')
  {
    hide Quiet, Settled;
  }

  /** Whatever the store answers and whatever arrives meanwhile: when `flush` returns, every record enqueued
      before the call is committed or counted as dropped, the accounts balance, and at most one write more
      than the number of retries was tried. */
  lemma {:induction false} FlushSettles(c: Config, s: Shared, k: nat, store: nat -> Attempt, others: nat -> Others)
    requires Quiet(c, s) && k <= c.retries
    ensures var r := FlushFrom(c, s, k, store, others); Delivered(c, s, r.0) && r.1 <= c.retries + 1
    decreases c.retries - k
  {
    var batch := s.buffer;
    if batch == [] {
      EmptyBufferDelivers(c, s);
    } else {
      hide Delivered, Quiet, WhileWriting, AfterSleep, Outcome;
      assert |s.buffer| <= c.maxlen by { QuietFits(c, s); }
      var d, r := WhileWriting(c, s, others(k)), Outcome(c, batch, store(k));
      if r == Written {
        WriteDelivers(c, s, others(k));
      } else if Retried(c, r, k) {
        var q := AfterSleep(c, d, batch, others(k));
        SleepingKeepsQuiet(c, s, others(k));
        FlushSettles(c, q, k + 1, store, others);
        DeliveredLater(c, s, q, FlushFrom(c, q, k + 1, store, others).0);
      } else {
        DropDelivers(c, s, others(k));
      }
    }
  }

  lemma QuietFits(c: Config, s: Shared)
    requires Quiet(c, s)
    ensures |s.buffer| <= c.maxlen
  {
  }

  lemma {:induction false} ArrivalsNeverEmpty(c: Config, s: Shared, tables: seq<string>)
    requires 0 < |s.buffer| <= c.maxlen
    ensures EnqueueAll(c, s, tables).buffer != []
  {
    if tables != [] {
      ArrivalsNeverEmpty(c, s, tables[..|tables| - 1]);
    }
  }

  /** The second `if not batch: return`, after a retry, never fires: a non-empty batch goes back into the
      buffer, and enqueueing never empties it. */
  lemma RedrainFindsABatch(c: Config, d: Shared, batch: seq<Entry>, o: Others)
    requires |d.buffer| <= c.maxlen && 0 < |batch| <= c.maxlen
    ensures AfterSleep(c, d, batch, o).buffer != []
  {
    ExtendLeftRestoresBatch(d.buffer, batch, c.maxlen);
    ArrivalsNeverEmpty(c, RequeueSection(d, batch, c.maxlen), o.sleeping);
  }

  // ---------------------------------------------------------------------------------------------
  // When a flush loses nothing
  // ---------------------------------------------------------------------------------------------

  /** The tables of some entries, in order. */
  function Names(s: seq<Entry>): (ts: seq<string>)
    ensures |ts| == |s|
  {
    if s == [] then [] else Names(s[..|s| - 1]) + [s[|s| - 1].table]
  }

  lemma {:induction false} NamesConcat(a: seq<Entry>, b: seq<Entry>)
    ensures Names(a + b) == Names(a) + Names(b)
  {
    if b == [] {
      assert a + b == a;
    } else {
      assert (a + b)[..|a + b| - 1] == a + b[..|b| - 1];
      NamesConcat(a, b[..|b| - 1]);
    }
  }

  lemma {:induction false} NamesMembers(s: seq<Entry>, t: string)
    ensures t in Names(s) <==> exists e :: e in s && e.table == t
  {
    if s != [] {
      var init, last := s[..|s| - 1], s[|s| - 1];
      assert s == init + [last];
      NamesMembers(init, t);
    }
  }

  predicate KnownNames(c: Config, tables: seq<string>) { forall t :: t in tables ==> t in c.known }

  lemma KnownByName(c: Config, batch: seq<Entry>)
    ensures AllKnown(c, batch) <==> KnownNames(c, Names(batch))
  {
    forall t ensures t in Names(batch) <==> exists e :: e in batch && e.table == t {
      NamesMembers(batch, t);
    }
    if KnownNames(c, Names(batch)) {
      forall e | e in batch ensures e.table in c.known {
        assert e.table in Names(batch);
      }
    }
  }

  /** Records that arrive are kept, all of them, exactly if they fit into the buffer. */
  lemma {:induction false} ArrivalsFit(c: Config, s: Shared, tables: seq<string>)
    requires |s.buffer| <= c.maxlen
    ensures var r := EnqueueAll(c, s, tables);
      if |s.buffer| + |tables| <= c.maxlen then r.lost == s.lost && Names(r.buffer) == Names(s.buffer) + tables
      else |r.lost| > |s.lost|
    ensures |EnqueueAll(c, s, tables).lost| >= |s.lost|
  {
    if tables == [] {
      assert Names(s.buffer) + [] == Names(s.buffer);
    } else {
      var init, t := tables[..|tables| - 1], tables[|tables| - 1];
      assert tables == init + [t];
      ArrivalsFit(c, s, init);
      OneArrivalFits(c, EnqueueAll(c, s, init), t);
      hide EnqueueSection, Names;
    }
  }

  lemma OneArrivalFits(c: Config, s: Shared, t: string)
    requires |s.buffer| <= c.maxlen
    ensures var r := EnqueueSection(s, t, c.maxlen);
      if |s.buffer| < c.maxlen then r.lost == s.lost && Names(r.buffer) == Names(s.buffer) + [t]
      else |r.lost| > |s.lost|
  {
    var e := Entry(|s.enqueued|, t);
    assert (s.buffer + [e])[..|s.buffer|] == s.buffer;
  }

  lemma RequeueFits(c: Config, d: Shared, batch: seq<Entry>)
    requires |d.buffer| <= c.maxlen
    ensures var r := RequeueSection(d, batch, c.maxlen);
      if |batch| + |d.buffer| <= c.maxlen then r.lost == d.lost && r.buffer == batch + d.buffer
      else |r.lost| > |d.lost|
  {
    ExtendLeftRestoresBatch(d.buffer, batch, c.maxlen);
    hide ExtendLeft, Reversed;
  }

  /** All that arrives from attempt `k` until the drain of attempt `j`. */
  function Arrived(others: nat -> Others, k: nat, j: nat): seq<string>
    decreases j - k
  {
    if j <= k then [] else (others(k).writing + others(k).sleeping) + Arrived(others, k + 1, j)
  }

  /** With these tables buffered at attempt `k`, attempt `j` is accepted after nothing but locks; the buffered
      records and all that arrive before it are of known tables and fit into the buffer together, and what arrives
      during the accepted write fits too. */
  ghost predicate LosslessAt(c: Config, tables: seq<string>, store: nat -> Attempt, others: nat -> Others, k: nat,
                             j: nat) {
    && k <= j <= c.retries && store(j).Proceed? && (forall i :: k <= i < j ==> store(i) == Fails(Locked))
    && KnownNames(c, tables + Arrived(others, k, j)) && |tables| + |Arrived(others, k, j)| <= c.maxlen
    && |others(j).writing| <= c.maxlen
  }

  ghost predicate Lossless(c: Config, tables: seq<string>, store: nat -> Attempt, others: nat -> Others, k: nat) {
    exists j :: LosslessAt(c, tables, store, others, k, j)
  }

  lemma LosslessNow(c: Config, tables: seq<string>, store: nat -> Attempt, others: nat -> Others, k: nat)
    requires |tables| <= c.maxlen && k <= c.retries && (store(k) != Fails(Locked) || k == c.retries)
    ensures Lossless(c, tables, store, others, k)
            <==> store(k).Proceed? && KnownNames(c, tables) && |others(k).writing| <= c.maxlen
  {
    assert Arrived(others, k, k) == [] && tables + [] == tables;
    if store(k).Proceed? && KnownNames(c, tables) && |others(k).writing| <= c.maxlen {
      assert LosslessAt(c, tables, store, others, k, k);
    }
    hide KnownNames, Arrived;
    if Lossless(c, tables, store, others, k) {
      var j :| LosslessAt(c, tables, store, others, k, j);
      assert j == k;
    }
  }

  lemma LosslessLater(c: Config, tables: seq<string>, store: nat -> Attempt, others: nat -> Others, k: nat)
    requires store(k) == Fails(Locked)
    ensures Lossless(c, tables, store, others, k)
            <==> Lossless(c, tables + (others(k).writing + others(k).sleeping), store, others, k + 1)
  {
    var later := tables + (others(k).writing + others(k).sleeping);
    forall j: nat
      ensures LosslessAt(c, tables, store, others, k, j) <==> LosslessAt(c, later, store, others, k + 1, j)
    {
      if j > k {
        assert tables + Arrived(others, k, j) == later + Arrived(others, k + 1, j);
      }
      hide KnownNames, Arrived;
    }
    hide LosslessAt;
    if Lossless(c, tables, store, others, k) {
      var j :| LosslessAt(c, tables, store, others, k, j);
      assert LosslessAt(c, later, store, others, k + 1, j);
    }
    if Lossless(c, later, store, others, k + 1) {
      var j :| LosslessAt(c, later, store, others, k + 1, j);
      assert LosslessAt(c, tables, store, others, k, j);
    }
  }

  lemma LosslessFits(c: Config, tables: seq<string>, store: nat -> Attempt, others: nat -> Others, k: nat)
    requires Lossless(c, tables, store, others, k)
    ensures |tables| <= c.maxlen
  {
  }

  lemma {:induction false} LossesStay(c: Config, s: Shared, k: nat, store: nat -> Attempt, others: nat -> Others)
    requires |s.buffer| <= c.maxlen && k <= c.retries
    ensures |FlushFrom(c, s, k, store, others).0.lost| >= |s.lost|
    decreases c.retries - k
  {
    var batch := s.buffer;
    if batch != [] {
      var d := WhileWriting(c, s, others(k));
      ArrivalsFit(c, DrainSection(s), others(k).writing);
      if Retried(c, Outcome(c, batch, store(k)), k) {
        var q := RequeueSection(d, batch, c.maxlen);
        RequeueFits(c, d, batch);
        ArrivalsFit(c, q, others(k).sleeping);
        hide RequeueSection, EnqueueAll, Outcome;
        LossesStay(c, AfterSleep(c, d, batch, others(k)), k + 1, store, others);
      }
    }
  }

  lemma WritingFits(c: Config, s: Shared, o: Others)
    requires |s.buffer| <= c.maxlen
    ensures var d := WhileWriting(c, s, o);
      && |d.lost| >= |s.lost|
      && if |o.writing| <= c.maxlen then d.lost == s.lost && Names(d.buffer) == o.writing else |d.lost| > |s.lost|
  {
    ArrivalsFit(c, DrainSection(s), o.writing);
    NoNames();
    assert [] + o.writing == o.writing;
    hide EnqueueAll, Names;
  }

  lemma SleepFits(c: Config, d: Shared, batch: seq<Entry>, o: Others)
    requires |d.buffer| <= c.maxlen
    ensures var r := AfterSleep(c, d, batch, o);
      && |r.lost| >= |d.lost|
      && if |batch| + |d.buffer| + |o.sleeping| <= c.maxlen then
           r.lost == d.lost && Names(r.buffer) == Names(batch) + Names(d.buffer) + o.sleeping
         else |r.lost| > |d.lost|
  {
    RequeueFits(c, d, batch);
    ArrivalsFit(c, RequeueSection(d, batch, c.maxlen), o.sleeping);
    NamesConcat(batch, d.buffer);
    hide EnqueueAll, RequeueSection, Names;
    FullRequeue(c, d, batch);
  }

  lemma FullRequeue(c: Config, d: Shared, batch: seq<Entry>)
    requires |d.buffer| <= c.maxlen
    ensures |RequeueSection(d, batch, c.maxlen).lost| >= |d.lost|
  {
    RequeueFits(c, d, batch);
  }

  /** What one round of writing, requeueing and sleeping loses. */
  lemma RoundFits(c: Config, s: Shared, o: Others)
    requires |s.buffer| <= c.maxlen
    ensures var r := AfterSleep(c, WhileWriting(c, s, o), s.buffer, o);
      if |s.buffer| + |o.writing| + |o.sleeping| <= c.maxlen then
        r.lost == s.lost && Names(r.buffer) == Names(s.buffer) + (o.writing + o.sleeping)
      else |r.lost| > |s.lost|
  {
    var d := WhileWriting(c, s, o);
    hide *;
    WritingFits(c, s, o);
    SleepFits(c, d, s.buffer, o);
    assert |d.buffer| == |Names(d.buffer)|;
    Associative(Names(s.buffer), o.writing, o.sleeping);
  }

  lemma Associative(a: seq<string>, b: seq<string>, c: seq<string>)
    ensures a + b + c == a + (b + c) && |a + (b + c)| == |a| + |b| + |c|
  {
  }

  lemma NoNames()
    ensures Names([]) == []
  {
  }

  /** A flush loses nothing exactly if there is nothing to flush, or some attempt is accepted after nothing but locks,
      by when the buffered records and all arrivals are of known tables and have fitted into the buffer. */
  lemma {:induction false} FlushLosesNothingIff(c: Config, s: Shared, k: nat, store: nat -> Attempt,
                                                others: nat -> Others)
    requires |s.buffer| <= c.maxlen && k <= c.retries
    ensures FlushFrom(c, s, k, store, others).0.lost == s.lost
            <==> s.buffer == [] || Lossless(c, Names(s.buffer), store, others, k)
    decreases c.retries - k
  {
    var batch, o := s.buffer, others(k);
    if batch != [] {
      var r := Outcome(c, batch, store(k));
      KnownByName(c, batch);
      if Retried(c, r, k) {
        var q := AfterSleep(c, WhileWriting(c, s, o), batch, o);
        assert store(k) == Fails(Locked) by { hide KnownNames, Names, AllKnown; }
        hide AfterSleep, WhileWriting, Lossless, Names, AllKnown, Outcome, KnownNames;
        RoundFits(c, s, o);
        LosslessLater(c, Names(batch), store, others, k);
        if |batch| + |o.writing| + |o.sleeping| <= c.maxlen {
          FlushLosesNothingIff(c, q, k + 1, store, others);
          assert |q.buffer| == |Names(q.buffer)|;
        } else {
          LossesStay(c, q, k + 1, store, others);
          if Lossless(c, Names(batch), store, others, k) {
            LosslessFits(c, Names(batch) + (o.writing + o.sleeping), store, others, k + 1);
            assert false;
          }
        }
      } else {
        hide Lossless, Names, KnownNames;
        ArrivalsFit(c, DrainSection(s), o.writing);
        LosslessNow(c, Names(batch), store, others, k);
        hide EnqueueAll;
      }
    }
  }

  /** A flush whose first write is accepted commits exactly the old buffer and leaves what arrived while it wrote; one
      unknown table in the batch, or any error that is not a lock, loses the whole batch. */
  lemma FirstWriteDecides(c: Config, s: Shared, store: nat -> Attempt, others: nat -> Others)
    requires Quiet(c, s) && s.buffer != []
    ensures var s' := FlushFrom(c, s, 0, store, others).0;
      var d := WhileWriting(c, s, others(0));
      var clean := store(0).Proceed? && AllKnown(c, s.buffer);
      && (clean ==> s'.lost == d.lost && s'.buffer == d.buffer
                    && forall t :: Rows(s'.rows, t) == Rows(s.rows, t) + Rows(s.buffer, t))
      && (!clean && store(0) != Fails(Locked) ==> s'.rows == s.rows && s'.lost == d.lost + s.buffer)
  {
    FirstWrite(c, s, store, others);
    WritingHolds(c, s, others(0));
    hide *;
    CommittedRows(s, s.buffer);
    RowsAreCommitted(WhileWriting(c, s, others(0)), s.buffer);
  }

  lemma FirstWrite(c: Config, s: Shared, store: nat -> Attempt, others: nat -> Others)
    requires |s.buffer| <= c.maxlen && s.buffer != []
    ensures var s', d := FlushFrom(c, s, 0, store, others).0, WhileWriting(c, s, others(0));
      var clean := store(0).Proceed? && AllKnown(c, s.buffer);
      && (clean ==> s' == CountSection(CommitSection(d, s.buffer), s.buffer))
      && (!clean && store(0) != Fails(Locked) ==> s' == DropSection(d, s.buffer))
  {
    hide AllKnown, WhileWriting, AfterSleep, CommitSection, CountSection, DropSection;
  }

  lemma RowsAreCommitted(d: Shared, batch: seq<Entry>)
    ensures var r := CountSection(CommitSection(d, batch), batch);
      r.rows == d.rows + Grouped(batch) && r.lost == d.lost && r.buffer == d.buffer
    ensures var r := DropSection(d, batch); r.rows == d.rows && r.lost == d.lost + batch
  {
    hide Grouped;
  }

  lemma CommittedRows(s: Shared, batch: seq<Entry>)
    ensures forall t :: Rows(s.rows + Grouped(batch), t) == Rows(s.rows, t) + Rows(batch, t)
  {
    GroupingKeepsRows(batch);
    hide Grouped, Rows;
    forall t ensures Rows(s.rows + Grouped(batch), t) == Rows(s.rows, t) + Rows(batch, t) {
      RowsConcat(s.rows, Grouped(batch), t);
    }
  }
}

/** Every interleaving of enqueuers, flushing threads, the background worker and shutdown.

    One action is one lock-protected section, one store transaction or one lock operation. Any thread may
    enqueue at any time; the flush lock admits one flushing thread. */
module TelemetryProtocol {
  import opened TelemetryLedger
  import opened BufferedWriter

  /** Where a thread is inside `flush`. `mark` is the number of records enqueued when it called `flush`. */
  datatype Phase =
    | Idle
    | Waiting(mark: nat)                                  // wants the flush lock
    | Draining(mark: nat, attempt: nat)                   // holds the lock, drains next
    | Writing(mark: nat, attempt: nat, batch: seq<Entry>) // holds a drained batch
    | Counting(mark: nat, attempt: nat, batch: seq<Entry>) // committed, counters not yet updated

  datatype Holder = Nobody | Thread(id: nat)

  datatype System = System(shared: Shared, lock: Holder, threads: map<nat, Phase>, stopped: bool)

  /** Thread 0 is the background worker. */
  const WORKER: nat := 0

  datatype Action =
    | Enqueue(table: string)
    | CallFlush(t: nat)
    | CallShutdown(t: nat)
    | Acquire(t: nat)
    | Drain(t: nat)
    | Commit(t: nat)
    | Count(t: nat)
    | FailLocked(t: nat)   // rolled back with a lock error, requeued, sleeping
    | FailFatal(t: nat)    // rolled back for good, dropped

  const INITIAL := System(EMPTY, Nobody, map[], false)

  function At(threads: map<nat, Phase>, t: nat): Phase { if t in threads then threads[t] else Idle }

  predicate Enabled(c: Config, s: System, a: Action) {
    match a
    case Enqueue(_) => true
    case CallFlush(t) => At(s.threads, t).Idle? && (t == WORKER ==> !s.stopped)
    case CallShutdown(t) => At(s.threads, t).Idle? && t != WORKER
    case Acquire(t) => At(s.threads, t).Waiting? && s.lock == Nobody
    case Drain(t) => At(s.threads, t).Draining?
    case Commit(t) => At(s.threads, t).Writing? && AllKnown(c, At(s.threads, t).batch)
    case Count(t) => At(s.threads, t).Counting?
    case FailLocked(t) => At(s.threads, t).Writing? && At(s.threads, t).attempt < c.retries
    case FailFatal(t) => At(s.threads, t).Writing?
  }

  function Moved(s: System, t: nat, p: Phase): System { s.(threads := s.threads[t := p]) }

  /** Leaving `flush` releases the lock. */
  function Returned(s: System, t: nat): System { Moved(s, t, Idle).(lock := Nobody) }

  function Step(c: Config, s: System, a: Action): System
    requires |s.shared.buffer| <= c.maxlen && Enabled(c, s, a)
  {
    match a
    case Enqueue(table) => s.(shared := EnqueueSection(s.shared, table, c.maxlen))
    case CallFlush(t) => Moved(s, t, Waiting(|s.shared.enqueued|))
    case CallShutdown(t) => Moved(s, t, Waiting(|s.shared.enqueued|)).(stopped := true)
    case Acquire(t) => Moved(s, t, Draining(At(s.threads, t).mark, 0)).(lock := Thread(t))
    case Drain(t) =>
      var p, batch := At(s.threads, t), s.shared.buffer;
      var s' := s.(shared := DrainSection(s.shared));
      if batch == [] then Returned(s', t) else Moved(s', t, Writing(p.mark, p.attempt, batch))
    case Commit(t) =>
      var p := At(s.threads, t);
      Moved(s, t, Counting(p.mark, p.attempt, p.batch)).(shared := CommitSection(s.shared, p.batch))
    case Count(t) => Returned(s, t).(shared := CountSection(s.shared, At(s.threads, t).batch))
    case FailLocked(t) =>
      var p := At(s.threads, t);
      Moved(s, t, Draining(p.mark, p.attempt + 1)).(shared := RequeueSection(s.shared, p.batch, c.maxlen))
    case FailFatal(t) => Returned(s, t).(shared := DropSection(s.shared, At(s.threads, t).batch))
  }

  /** What the flush in progress has drained and not yet settled. */
  function Pending(s: System): seq<Entry> {
    match s.lock
    case Nobody => []
    case Thread(t) => if At(s.threads, t).Writing? then At(s.threads, t).batch else []
  }

  /** Rows that are committed but not yet in `flushedTotal`. */
  function Uncounted(s: System): nat {
    match s.lock
    case Nobody => 0
    case Thread(t) => if At(s.threads, t).Counting? then |At(s.threads, t).batch| else 0
  }

  ghost predicate InFlush(p: Phase) { p.Draining? || p.Writing? || p.Counting? }

  /** Once a flush has drained, what is still in the buffer was enqueued after the flush was called. */
  ghost predicate HolderOk(c: Config, s: System) {
    s.lock.Thread? ==>
      match At(s.threads, s.lock.id)
      case Draining(_, attempt) => attempt <= c.retries && (attempt > 0 ==> s.shared.buffer != [])
      case Writing(mark, attempt, batch) => attempt <= c.retries && batch != [] && Newer(s.shared.buffer, mark)
      case Counting(mark, attempt, batch) => attempt <= c.retries && |batch| <= c.maxlen && Newer(s.shared.buffer, mark)
      case _ => false
  }

  ghost predicate Newer(buffer: seq<Entry>, mark: nat) { forall e :: e in buffer ==> mark <= e.stamp }

  /** The lock discipline: the one thread inside `flush` is the one that holds the lock. */
  ghost predicate Discipline(c: Config, s: System) {
    && HolderOk(c, s)
    && (forall t :: InFlush(At(s.threads, t)) <==> s.lock == Thread(t))
    && (forall t :: !At(s.threads, t).Idle? ==> At(s.threads, t).mark <= |s.shared.enqueued|)
    && s.shared.flushedTotal + Uncounted(s) == |s.shared.rows|
  }

  ghost predicate Inv(c: Config, s: System) {
    Ledger(s.shared, Pending(s), c.maxlen) && Discipline(c, s)
  }

  // ---------------------------------------------------------------------------------------------

  lemma EnqueueKeepsInv(c: Config, s: System, table: string)
    requires Inv(c, s)
    ensures Inv(c, Step(c, s, Enqueue(table)))
  {
    var s' := Step(c, s, Enqueue(table));
    assert Discipline(c, s') by {
      AppendConserves(s.shared.buffer, Entry(|s.shared.enqueued|, table), c.maxlen);
    }
    assert Pending(s') == Pending(s);
    EnqueueKeepsLedger(s.shared, Pending(s), c.maxlen, table);
  }

  lemma DrainKeepsInv(c: Config, s: System, t: nat)
    requires Inv(c, s) && Enabled(c, s, Drain(t))
    ensures Inv(c, Step(c, s, Drain(t)))
  {
    var s' := Step(c, s, Drain(t));
    var p := At(s.threads, t);
    assert Pending(s) == [] && Pending(s') == s.shared.buffer;
    var next := if s.shared.buffer == [] then Idle else Writing(p.mark, p.attempt, s.shared.buffer);
    assert s'.threads == s.threads[t := next];
    assert s'.lock == if s.shared.buffer == [] then Nobody else Thread(t);
    DrainKeepsLedger(s.shared, c.maxlen);
  }

  lemma CommitKeepsInv(c: Config, s: System, t: nat)
    requires Inv(c, s) && Enabled(c, s, Commit(t))
    ensures Inv(c, Step(c, s, Commit(t)))
  {
    var s', batch := Step(c, s, Commit(t)), At(s.threads, t).batch;
    assert Pending(s) == batch && Pending(s') == [];
    GroupingKeepsRows(batch);
    CommitKeepsLedger(s.shared, batch, c.maxlen);
  }

  lemma RequeueKeepsInv(c: Config, s: System, t: nat)
    requires Inv(c, s) && Enabled(c, s, FailLocked(t))
    ensures Inv(c, Step(c, s, FailLocked(t)))
  {
    var s', batch := Step(c, s, FailLocked(t)), At(s.threads, t).batch;
    assert Pending(s) == batch && Pending(s') == [];
    assert s'.shared.buffer != [] by {
      ExtendLeftRestoresBatch(s.shared.buffer, batch, c.maxlen);
    }
    RequeueKeepsLedger(s.shared, batch, c.maxlen);
  }

  lemma CountKeepsInv(c: Config, s: System, t: nat)
    requires Inv(c, s) && Enabled(c, s, Count(t))
    ensures Inv(c, Step(c, s, Count(t)))
  {
    var s', batch := Step(c, s, Count(t)), At(s.threads, t).batch;
    assert Pending(s) == [] && Pending(s') == [];
    CountKeepsLedger(s.shared, [], c.maxlen, batch);
  }

  lemma FailKeepsInv(c: Config, s: System, t: nat)
    requires Inv(c, s) && Enabled(c, s, FailFatal(t))
    ensures Inv(c, Step(c, s, FailFatal(t)))
  {
    var s', batch := Step(c, s, FailFatal(t)), At(s.threads, t).batch;
    assert Pending(s) == batch && Pending(s') == [];
    DropKeepsLedger(s.shared, batch, c.maxlen);
  }

  /** A thread that is not inside `flush` may move on outside of it. */
  lemma MovedKeepsInv(c: Config, s: System, t: nat, p: Phase, stopped: bool)
    requires Inv(c, s) && !InFlush(At(s.threads, t)) && !InFlush(p)
    requires !p.Idle? ==> p.mark <= |s.shared.enqueued|
    ensures Inv(c, Moved(s, t, p).(stopped := stopped))
  {
    hide InOrder, Conserved;
    var s' := Moved(s, t, p).(stopped := stopped);
    assert forall x :: At(s'.threads, x) == if x == t then p else At(s.threads, x);
    assert Pending(s') == Pending(s);
  }

  lemma CallKeepsInv(c: Config, s: System, a: Action)
    requires Inv(c, s) && Enabled(c, s, a) && (a.CallFlush? || a.CallShutdown?)
    ensures Inv(c, Step(c, s, a))
  {
    hide Inv;
    MovedKeepsInv(c, s, a.t, Waiting(|s.shared.enqueued|), s.stopped || a.CallShutdown?);
  }

  lemma AcquireKeepsInv(c: Config, s: System, t: nat)
    requires Inv(c, s) && Enabled(c, s, Acquire(t))
    ensures Inv(c, Step(c, s, Acquire(t)))
  {
    hide InOrder, Conserved;
    var s' := Step(c, s, Acquire(t));
    assert forall x :: At(s'.threads, x) == if x == t then Draining(At(s.threads, t).mark, 0) else At(s.threads, x);
    assert Pending(s') == Pending(s);
  }

  lemma StepKeepsInv(c: Config, s: System, a: Action)
    requires Inv(c, s) && Enabled(c, s, a)
    ensures Inv(c, Step(c, s, a))
  {
    match a
    case Enqueue(table) => EnqueueKeepsInv(c, s, table);
    case Drain(t) => DrainKeepsInv(c, s, t);
    case Commit(t) => CommitKeepsInv(c, s, t);
    case FailLocked(t) => RequeueKeepsInv(c, s, t);
    case Count(t) => CountKeepsInv(c, s, t);
    case FailFatal(t) => FailKeepsInv(c, s, t);
    case Acquire(t) => AcquireKeepsInv(c, s, t);
    case _ => CallKeepsInv(c, s, a);
  }

  // ---------------------------------------------------------------------------------------------
  // Runs
  // ---------------------------------------------------------------------------------------------

  /** `s` is reached by performing the actions in order. */
  ghost predicate Reaches(c: Config, run: seq<Action>, s: System)
    decreases |run|
  {
    if run == [] then s == INITIAL
    else exists p :: Reaches(c, run[..|run| - 1], p) && |p.shared.buffer| <= c.maxlen
                     && Enabled(c, p, run[|run| - 1]) && s == Step(c, p, run[|run| - 1])
  }

  lemma {:induction false} ReachableInv(c: Config, run: seq<Action>, s: System)
    requires Reaches(c, run, s)
    ensures Inv(c, s)
    decreases |run|
  {
    if run == [] {
      assert Ledger(s.shared, [], c.maxlen);
    } else {
      var p :| Reaches(c, run[..|run| - 1], p) && |p.shared.buffer| <= c.maxlen
               && Enabled(c, p, run[|run| - 1]) && s == Step(c, p, run[|run| - 1]);
      ReachableInv(c, run[..|run| - 1], p);
      StepKeepsInv(c, p, run[|run| - 1]);
    }
  }

  /** In every reachable state the records enqueued are those buffered, those held by the flush in progress,
      those flushed and those dropped; buffer and held batch respect the capacity. */
  lemma Conservation(c: Config, run: seq<Action>, s: System)
    requires Reaches(c, run, s)
    ensures |s.shared.enqueued|
         == |s.shared.buffer| + (|Pending(s)| + Uncounted(s)) + s.shared.flushedTotal + s.shared.droppedTotal
    ensures |s.shared.buffer| <= c.maxlen && |Pending(s)| + Uncounted(s) <= c.maxlen
  {
    ReachableInv(c, run, s);
    Accounted(s.shared, Pending(s));
  }

  /** In every reachable state no record is committed twice, and per table the committed, held and buffered
      records are in enqueue order. */
  lemma OrderAndUniqueness(c: Config, run: seq<Action>, s: System, t: string, e: Entry)
    requires Reaches(c, run, s)
    ensures multiset(s.shared.rows)[e] + multiset(Pending(s))[e] + multiset(s.shared.buffer)[e]
          + multiset(s.shared.lost)[e] <= 1
    ensures Subsequence(Rows(s.shared.rows, t) + Rows(Pending(s), t) + Rows(s.shared.buffer, t),
                        Rows(s.shared.enqueued, t))
  {
    ReachableInv(c, run, s);
    CommittedAtMostOnce(s.shared, Pending(s), c.maxlen, e);
    TableOrderIsKept(s.shared, Pending(s), c.maxlen, t);
  }

  /** The actions by which a thread returns from `flush` leave nothing pending and no older record buffered. */
  lemma ReturningLeavesNothingOld(c: Config, s: System, a: Action, t: nat)
    requires Inv(c, s) && Enabled(c, s, a)
    requires !At(s.threads, t).Idle? && At(Step(c, s, a).threads, t).Idle?
    ensures Pending(Step(c, s, a)) == []
    ensures Newer(Step(c, s, a).shared.buffer, At(s.threads, t).mark)
    ensures At(s.threads, t).mark <= |s.shared.enqueued| == |Step(c, s, a).shared.enqueued|
  {
    assert a == Drain(t) || a == Count(t) || a == FailFatal(t);
  }

  /** Whenever a thread comes back from `flush`, directly or through `shutdown`, every record enqueued before
      its call is committed or counted as dropped, whichever thread flushed it. */
  lemma FlushReturnsSettled(c: Config, run: seq<Action>, s: System, a: Action, t: nat)
    requires Reaches(c, run, s) && |s.shared.buffer| <= c.maxlen && Enabled(c, s, a)
    requires !At(s.threads, t).Idle? && At(Step(c, s, a).threads, t).Idle?
    ensures var s' := Step(c, s, a); var mark := At(s.threads, t).mark;
      && mark <= |s'.shared.enqueued|
      && forall i :: 0 <= i < mark ==> Settled(s'.shared, s'.shared.enqueued[i])
  {
    ReachableInv(c, run, s);
    ReturningLeavesNothingOld(c, s, a, t);
    StepKeepsInv(c, s, a);
    AccountsOf(Step(c, s, a).shared, At(s.threads, t).mark, c.maxlen);
  }

  lemma AccountsOf(s: Shared, mark: nat, maxlen: nat)
    requires Ledger(s, [], maxlen) && mark <= |s.enqueued| && Newer(s.buffer, mark)
    ensures forall i :: 0 <= i < mark ==> Settled(s, s.enqueued[i])
  {
    Accounted(s, []);
    forall i | 0 <= i < mark ensures Settled(s, s.enqueued[i]) {
      assert s.enqueued[i] in s.enqueued && s.enqueued[i].stamp == i;
    }
  }

  /** How many further actions of its own a flushing thread can take. */
  function Rank(c: Config, p: Phase): nat {
    match p
    case Idle => 0
    case Waiting(_) => 3 * c.retries + 4
    case Draining(_, attempt) => if attempt <= c.retries then 3 * (c.retries - attempt) + 3 else 0
    case Writing(_, attempt, _) => if attempt <= c.retries then 3 * (c.retries - attempt) + 2 else 0
    case Counting(_, _, _) => 1
  }

  function Actor(a: Action): Holder {
    match a
    case Enqueue(_) => Nobody
    case CallFlush(t) => Thread(t)
    case CallShutdown(t) => Thread(t)
    case Acquire(t) => Thread(t)
    case Drain(t) => Thread(t)
    case Commit(t) => Thread(t)
    case Count(t) => Thread(t)
    case FailLocked(t) => Thread(t)
    case FailFatal(t) => Thread(t)
  }

  /** No deadlock and no endless flush: the thread holding the lock always has a next action, each of its
      actions brings it closer to returning, and nobody else's action sets it back. A flush makes at most
      `retries` + 1 write attempts. */
  lemma FlushTerminates(c: Config, run: seq<Action>, s: System, a: Action, t: nat)
    requires Reaches(c, run, s) && |s.shared.buffer| <= c.maxlen && Enabled(c, s, a) && s.lock == Thread(t)
    ensures exists own :: Enabled(c, s, own) && Actor(own) == Thread(t)
    ensures Actor(a) == Thread(t) ==> Rank(c, At(Step(c, s, a).threads, t)) < Rank(c, At(s.threads, t))
    ensures Actor(a) != Thread(t) ==> At(Step(c, s, a).threads, t) == At(s.threads, t)
    ensures InFlush(At(s.threads, t)) && At(s.threads, t).attempt + 1 <= c.retries + 1
  {
    hide Reaches, InOrder, Conserved, Ledger, RequeueSection, EnqueueSection, CommitSection;
    ReachableInv(c, run, s);
    var p := At(s.threads, t);
    assert InFlush(p);
    if p.Draining? {
      assert Enabled(c, s, Drain(t)) && Actor(Drain(t)) == Thread(t);
    } else if p.Writing? {
      assert Enabled(c, s, FailFatal(t)) && Actor(FailFatal(t)) == Thread(t);
    } else {
      assert Enabled(c, s, Count(t)) && Actor(Count(t)) == Thread(t);
    }
  }

  // ---------------------------------------------------------------------------------------------
  // When a run loses nothing
  // ---------------------------------------------------------------------------------------------

  /** The actions that lose a record: enqueueing into a full buffer, requeueing a batch that no longer fits, and
      giving a batch up. */
  predicate Lossy(c: Config, s: System, a: Action) {
    match a
    case Enqueue(_) => |s.shared.buffer| >= c.maxlen
    case FailLocked(t) =>
      At(s.threads, t).Writing? && |At(s.threads, t).batch| + |s.shared.buffer| > c.maxlen
    case FailFatal(_) => true
    case _ => false
  }

  lemma StepLosesIff(c: Config, s: System, a: Action)
    requires Inv(c, s) && Enabled(c, s, a)
    ensures var s' := Step(c, s, a);
      if Lossy(c, s, a) then |s'.shared.lost| > |s.shared.lost| else s'.shared.lost == s.shared.lost
  {
    hide Ledger, ExtendLeft, Reversed, Append;
    assert |s.shared.buffer| <= c.maxlen by { BufferFits(c, s); }
    if a.FailLocked? {
      RequeueFits(c, s.shared, At(s.threads, a.t).batch);
    }
  }

  lemma BufferFits(c: Config, s: System)
    requires Inv(c, s)
    ensures |s.shared.buffer| <= c.maxlen
  {
  }

  /** A run of actions leads to one state. */
  lemma {:induction false} ReachesOneState(c: Config, run: seq<Action>, s: System, s': System)
    requires Reaches(c, run, s) && Reaches(c, run, s')
    ensures s == s'
    decreases |run|
  {
    if run != [] {
      hide Enabled, Step;
      var init, a := run[..|run| - 1], run[|run| - 1];
      var p :| Reaches(c, init, p) && |p.shared.buffer| <= c.maxlen && Enabled(c, p, a) && s == Step(c, p, a);
      var p' :| Reaches(c, init, p') && |p'.shared.buffer| <= c.maxlen && Enabled(c, p', a) && s' == Step(c, p', a);
      ReachesOneState(c, init, p, p');
    }
  }

  /** No action of the run is lossy in the state in which it is performed. */
  ghost predicate NeverLossy(c: Config, run: seq<Action>) {
    forall i, p :: 0 <= i < |run| && Reaches(c, run[..i], p) ==> !Lossy(c, p, run[i])
  }

  lemma {:induction false} NeverLossySnoc(c: Config, init: seq<Action>, a: Action, p: System)
    requires Reaches(c, init, p)
    ensures NeverLossy(c, init + [a]) <==> NeverLossy(c, init) && !Lossy(c, p, a)
  {
    hide Reaches, Lossy;
    var run := init + [a];
    assert run[..|init|] == init && run[|init|] == a;
    forall i | 0 <= i < |init| ensures run[..i] == init[..i] && run[i] == init[i] {}
    forall q | Reaches(c, init, q) ensures q == p {
      ReachesOneState(c, init, q, p);
    }
    if NeverLossy(c, run) {
      forall i, q | 0 <= i < |init| && Reaches(c, init[..i], q) ensures !Lossy(c, q, init[i]) {
        assert Reaches(c, run[..i], q);
      }
      assert Reaches(c, run[..|init|], p);
    }
  }

  lemma LastStep(c: Config, run: seq<Action>, s: System) returns (p: System)
    requires Reaches(c, run, s) && run != []
    ensures Reaches(c, run[..|run| - 1], p) && |p.shared.buffer| <= c.maxlen
    ensures Enabled(c, p, run[|run| - 1]) && s == Step(c, p, run[|run| - 1])
  {
    hide Enabled, Step;
    p :| Reaches(c, run[..|run| - 1], p) && |p.shared.buffer| <= c.maxlen
         && Enabled(c, p, run[|run| - 1]) && s == Step(c, p, run[|run| - 1]);
  }

  lemma NextLosesIff(c: Config, init: seq<Action>, a: Action, p: System)
    requires Reaches(c, init, p) && Inv(c, p) && Enabled(c, p, a)
    requires p.shared.lost == [] <==> NeverLossy(c, init)
    ensures Step(c, p, a).shared.lost == [] <==> NeverLossy(c, init + [a])
  {
    hide *;
    BufferFits(c, p);
    StepLosesIff(c, p, a);
    NeverLossySnoc(c, init, a, p);
  }

  lemma NothingLostAtStart(c: Config, s: System)
    requires Reaches(c, [], s)
    ensures s.shared.lost == [] && NeverLossy(c, [])
  {
  }

  lemma {:induction false} NothingLostIff(c: Config, run: seq<Action>, s: System)
    requires Reaches(c, run, s)
    ensures s.shared.lost == [] <==> NeverLossy(c, run)
    decreases |run|
  {
    hide *;
    if run == [] {
      NothingLostAtStart(c, s);
    } else {
      var init, a := run[..|run| - 1], run[|run| - 1];
      var p := LastStep(c, run, s);
      ReachableInv(c, init, p);
      NothingLostIff(c, init, p);
      NextLosesIff(c, init, a, p);
      assert init + [a] == run;
    }
  }

  /** A run, with or without a shutdown, loses nothing and counts no drop exactly if none of its actions is lossy. */
  lemma RunLosesNothingIff(c: Config, run: seq<Action>, s: System)
    requires Reaches(c, run, s)
    ensures s.shared.lost == [] <==> NeverLossy(c, run)
    ensures s.shared.droppedTotal == 0 <==> NeverLossy(c, run)
  {
    NothingLostIff(c, run, s);
    ReachableInv(c, run, s);
    hide Reaches, NeverLossy, InOrder, Discipline;
  }

  lemma Extend(c: Config, run: seq<Action>, s: System, a: Action)
    requires Reaches(c, run, s) && |s.shared.buffer| <= c.maxlen && Enabled(c, s, a)
    ensures Reaches(c, run + [a], Step(c, s, a))
  {
    assert (run + [a])[..|run|] == run;
  }

  /** The five states of a run in which a shutdown loses the one record enqueued before it. */
  function LosingState(i: nat): System {
    var e := Entry(0, "usage");
    var buffered, drained := EMPTY.(buffer := [e], enqueued := [e]), EMPTY.(enqueued := [e]);
    match i
    case 0 => INITIAL
    case 1 => INITIAL.(shared := buffered)
    case 2 => System(buffered, Nobody, map[1 := Waiting(1)], true)
    case 3 => System(buffered, Thread(1), map[1 := Draining(1, 0)], true)
    case 4 => System(drained, Thread(1), map[1 := Writing(1, 0, [e])], true)
    case _ => System(drained.(droppedTotal := 1, lost := [e]), Nobody, map[1 := Idle], true)
  }

  const LOSING_RUN: seq<Action> := [Enqueue("usage"), CallShutdown(1), Acquire(1), Drain(1), FailFatal(1)]

  lemma LosingStep(c: Config, i: nat)
    requires c.maxlen > 0 && i < 5
    ensures |LosingState(i).shared.buffer| <= c.maxlen && Enabled(c, LosingState(i), LOSING_RUN[i])
    ensures LosingState(i + 1) == Step(c, LosingState(i), LOSING_RUN[i])
  {
  }

  lemma {:induction false} LosingReach(c: Config, i: nat)
    requires c.maxlen > 0 && i <= 5
    ensures Reaches(c, LOSING_RUN[..i], LosingState(i))
  {
    if i > 0 {
      LosingReach(c, i - 1);
      LosingStep(c, i - 1);
      Extend(c, LOSING_RUN[..i - 1], LosingState(i - 1), LOSING_RUN[i - 1]);
      assert LOSING_RUN[..i] == LOSING_RUN[..i - 1] + [LOSING_RUN[i - 1]];
    }
  }

  /** The module's own promise that a graceful shutdown loses nothing buffered is too strong: a fatal error
      during the flush of `shutdown` drops the batch. */
  lemma ShutdownCanLose(c: Config)
    requires c.maxlen > 0
    ensures exists run, s :: Reaches(c, run, s) && s.stopped && At(s.threads, 1).Idle? && s.lock == Nobody
                             && s.shared.rows == [] && s.shared.lost == s.shared.enqueued == [Entry(0, "usage")]
  {
    LosingReach(c, 5);
  }
}

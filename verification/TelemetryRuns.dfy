/** Runs of the telemetry protocol, seen by a caller of `flush` and by a reader of the counters. */
module TelemetryRuns {
  import opened TelemetryLedger
  import opened BufferedWriter
  import opened TelemetryProtocol

  predicate IsCall(a: Action, t: nat) { a == CallFlush(t) || a == CallShutdown(t) }

  // ---------------------------------------------------------------------------------------------
  // From a call to its return
  // ---------------------------------------------------------------------------------------------

  /** The call is remembered together with how much had been enqueued by then. */
  lemma CallIsMarked(c: Config, s: System, a: Action, t: nat)
    requires |s.shared.buffer| <= c.maxlen && Enabled(c, s, a) && IsCall(a, t)
    ensures At(s.threads, t).Idle?
    ensures var s' := Step(c, s, a);
      s'.shared == s.shared && !At(s'.threads, t).Idle? && At(s'.threads, t).mark == |s.shared.enqueued|
  {
  }

  lemma EnqueuedGrows(c: Config, s: System, a: Action)
    requires |s.shared.buffer| <= c.maxlen && Enabled(c, s, a)
    ensures s.shared.enqueued <= Step(c, s, a).shared.enqueued
  {
    hide ExtendLeft, Reversed, Grouped, AllKnown;
  }

  /** A thread that stays inside its call keeps its mark. */
  lemma MarkStays(c: Config, s: System, a: Action, t: nat)
    requires |s.shared.buffer| <= c.maxlen && Enabled(c, s, a)
    requires !At(s.threads, t).Idle? && !At(Step(c, s, a).threads, t).Idle?
    ensures At(Step(c, s, a).threads, t).mark == At(s.threads, t).mark
  {
    hide AllKnown, EnqueueSection, DrainSection, RequeueSection, CommitSection, CountSection, DropSection;
  }

  /** Thread `t` is inside its call in every state of the run from `n` actions on. */
  ghost predicate Inside(c: Config, run: seq<Action>, n: nat, t: nat) {
    forall i, q :: n <= i <= |run| && Reaches(c, run[..i], q) ==> !At(q.threads, t).Idle?
  }

  lemma InsidePrefix(c: Config, run: seq<Action>, n: nat, t: nat)
    requires run != [] && n < |run| && Inside(c, run, n, t)
    ensures Inside(c, run[..|run| - 1], n, t)
  {
    hide Reaches;
    var init := run[..|run| - 1];
    forall i, q | n <= i <= |init| && Reaches(c, init[..i], q) ensures !At(q.threads, t).Idle? {
      assert run[..i] == init[..i];
    }
  }

  /** While a thread is inside its call, its mark is what had been enqueued when it called. */
  lemma {:induction false} MarkIsFromCall(c: Config, before: seq<Action>, p: System, call: Action, t: nat,
                                          run: seq<Action>, s: System)
    requires Reaches(c, before, p) && |p.shared.buffer| <= c.maxlen && Enabled(c, p, call) && IsCall(call, t)
    requires before + [call] <= run && Reaches(c, run, s) && Inside(c, run, |before| + 1, t)
    ensures !At(s.threads, t).Idle? && At(s.threads, t).mark == |p.shared.enqueued|
    ensures p.shared.enqueued <= s.shared.enqueued
    decreases |run|
  {
    hide *;
    var init, a := run[..|run| - 1], run[|run| - 1];
    var q := LastStep(c, run, s);
    if |run| == |before| + 1 {
      assert init == before && a == call by { PrefixParts(before, call, run); }
      ReachesOneState(c, before, p, q);
      CallIsMarked(c, p, call, t);
    } else {
      assert before + [call] <= init by { PrefixParts(before, call, run); }
      InsidePrefix(c, run, |before| + 1, t);
      MarkIsFromCall(c, before, p, call, t, init, q);
      InsideNow(c, run, |before| + 1, t, s);
      MarkStays(c, q, a, t);
      EnqueuedGrows(c, q, a);
    }
  }

  lemma PrefixParts(before: seq<Action>, call: Action, run: seq<Action>)
    requires before + [call] <= run
    ensures if |run| == |before| + 1 then run[..|run| - 1] == before && run[|run| - 1] == call
            else before + [call] <= run[..|run| - 1]
  {
    assert run[..|before| + 1] == before + [call];
    assert run[|before|] == (before + [call])[|before|];
  }

  lemma InsideNow(c: Config, run: seq<Action>, n: nat, t: nat, s: System)
    requires Inside(c, run, n, t) && n <= |run| && Reaches(c, run, s)
    ensures !At(s.threads, t).Idle?
  {
    hide Reaches;
    assert run[..|run|] == run;
  }

  /** When a thread comes back from the `flush` (or `shutdown`) that it called in state `p`, every record enqueued by
      then is committed or counted as dropped, whatever all other threads did in between. */
  lemma EverythingBeforeTheCallIsSettled(c: Config, before: seq<Action>, p: System, call: Action, t: nat,
                                         run: seq<Action>, s: System, a: Action)
    requires Reaches(c, before, p) && |p.shared.buffer| <= c.maxlen && Enabled(c, p, call) && IsCall(call, t)
    requires before + [call] <= run && Reaches(c, run, s) && Inside(c, run, |before| + 1, t)
    requires |s.shared.buffer| <= c.maxlen && Enabled(c, s, a) && At(Step(c, s, a).threads, t).Idle?
    ensures forall e :: e in p.shared.enqueued ==> Settled(Step(c, s, a).shared, e)
  {
    hide *;
    MarkIsFromCall(c, before, p, call, t, run, s);
    FlushReturnsSettled(c, run, s, a, t);
    EnqueuedGrows(c, s, a);
    var n, s' := |p.shared.enqueued|, Step(c, s, a).shared;
    forall e | e in p.shared.enqueued ensures Settled(s', e) {
      var i :| 0 <= i < n && p.shared.enqueued[i] == e;
      assert s'.enqueued[i] == e;
    }
  }

  // ---------------------------------------------------------------------------------------------
  // The counters and the rows
  // ---------------------------------------------------------------------------------------------

  /** How many of the actions end a successful write. */
  function Successes(run: seq<Action>): nat {
    if run == [] then 0 else Successes(run[..|run| - 1]) + if run[|run| - 1].Count? then 1 else 0
  }

  lemma StepCounts(c: Config, s: System, a: Action)
    requires |s.shared.buffer| <= c.maxlen && Enabled(c, s, a)
    ensures Step(c, s, a).shared.flushCount == s.shared.flushCount + if a.Count? then 1 else 0
  {
    hide ExtendLeft, Reversed, Grouped, AllKnown, Append, Evicted;
  }

  /** `flush_count` is the number of successful writes. */
  lemma {:induction false} FlushesAreCounted(c: Config, run: seq<Action>, s: System)
    requires Reaches(c, run, s)
    ensures s.shared.flushCount == Successes(run)
    decreases |run|
  {
    hide Enabled, Step;
    if run != [] {
      var p := LastStep(c, run, s);
      FlushesAreCounted(c, run[..|run| - 1], p);
      StepCounts(c, p, run[|run| - 1]);
    }
  }

  lemma StepCommitsKnown(c: Config, s: System, a: Action, e: Entry)
    requires |s.shared.buffer| <= c.maxlen && Enabled(c, s, a)
    requires e in Step(c, s, a).shared.rows && e !in s.shared.rows
    ensures e.table in c.known
  {
    hide ExtendLeft, Reversed, Append, Evicted, Grouped;
    assert a.Commit?;
    var batch := At(s.threads, a.t).batch;
    GroupingKeepsRows(batch);
    assert e in multiset(Grouped(batch));
  }

  /** Only records of tables that the store knows are ever committed. */
  lemma {:induction false} OnlyKnownTablesAreCommitted(c: Config, run: seq<Action>, s: System, e: Entry)
    requires Reaches(c, run, s) && e in s.shared.rows
    ensures e.table in c.known
    decreases |run|
  {
    hide Enabled, Step;
    if run != [] {
      var p := LastStep(c, run, s);
      if e in p.shared.rows {
        OnlyKnownTablesAreCommitted(c, run[..|run| - 1], p, e);
      } else {
        StepCommitsKnown(c, p, run[|run| - 1], e);
      }
    }
  }

  // ---------------------------------------------------------------------------------------------
  // Shutdown
  // ---------------------------------------------------------------------------------------------

  /** A shutdown stops the writer, at once and for good; the worker then ends the flush it is in, if any, and starts no
      other one, while every other thread may still flush. */
  lemma ShutdownStopsTheWorker(c: Config, s: System, a: Action)
    requires |s.shared.buffer| <= c.maxlen && Enabled(c, s, a)
    ensures Step(c, s, a).stopped <==> s.stopped || a.CallShutdown?
    ensures s.stopped && At(s.threads, WORKER).Idle? ==> At(Step(c, s, a).threads, WORKER).Idle?
  {
    hide ExtendLeft, Reversed, Append, Evicted, Grouped, AllKnown;
  }

  /** Outside of its calls every thread but a stopped worker can flush, whatever the others are doing. */
  lemma AnyoneMayCall(c: Config, s: System, t: nat)
    requires At(s.threads, t).Idle?
    ensures Enabled(c, s, CallFlush(t)) <==> t != WORKER || !s.stopped
    ensures Enabled(c, s, CallShutdown(t)) <==> t != WORKER
  {
  }
}

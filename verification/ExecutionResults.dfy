/** What an execution reports, in terms of what the agent did in each attempt. */
module ExecutionResults {
  import opened Common
  import opened AgentLifecycle
  import opened AgentExecutor

  /** The request passes every check before the first attempt. */
  predicate Accepted(r: Request) { r.taskIsValid && r.capabilities != Refuses && r.intent != Refuses }

  /** The code that is reported for what the agent did, if that is an error. */
  function CodeOf(b: Behaviour): Option<ErrorCode> {
    match b
    case Succeeds => None
    case Fails(Some(error), _) => Some(error.code)
    case Fails(None, Some(code)) => Some(code)
    case Fails(None, None) => Some(RUNTIME_ERROR)
    case RaisesTimeout => Some(TIMEOUT)
    case RaisesValidation => Some(VALIDATION_ERROR)
    case RaisesPermission => Some(PERMISSION_DENIED)
    case RaisesOther => Some(RUNTIME_ERROR)
  }

  /** The policy in force: that of the request, or else that of the agent. */
  predicate InForce(r: Request, p: RetryPolicy) {
    r.requestPolicy == Some(p) || (r.requestPolicy.None? && r.agentPolicy == Some(p))
  }

  /** An attempt is followed by another one exactly if a policy is in force that lists the code of a raised timeout or
      of a raised error of unknown kind, and it allows more attempts. Nothing else is ever retried. */
  lemma RetriedIff(r: Request, b: Behaviour, k: nat)
    ensures Retries(r, b, k) <==>
      exists p :: InForce(r, p) && k < p.maxAttempts
                  && ((b.RaisesTimeout? && TIMEOUT in p.retryableCodes)
                      || (b.RaisesOther? && RUNTIME_ERROR in p.retryableCodes))
  {
    if r.requestPolicy.Some? {
      assert InForce(r, r.requestPolicy.value);
    } else if r.agentPolicy.Some? {
      assert InForce(r, r.agentPolicy.value);
    }
  }

  /** The outcome tells what happened in the last attempt: it was cancelled, or the agent succeeded, timed out or
      failed there, with the code of that failure. All attempts before it were retried, and the last one was not. */
  lemma OutcomeTellsLastAttempt(r: Request, agent: nat -> Behaviour, cancelledAt: nat -> bool)
    requires Accepted(r)
    ensures var o := ExpectedOutcome(r, agent, cancelledAt); var k := o.attempts;
      && (o.status == Cancelled <==> cancelledAt(k))
      && (o.status == Succeeded <==> !cancelledAt(k) && agent(k).Succeeds?)
      && (o.status == TimedOut <==> !cancelledAt(k) && agent(k).RaisesTimeout?)
      && (o.status == Failed <==> !cancelledAt(k) && !agent(k).Succeeds? && !agent(k).RaisesTimeout?)
      && o.error == (if cancelledAt(k) then None else CodeOf(agent(k)))
      && k >= 1 && (forall j :: 1 <= j < k ==> !cancelledAt(j) && Retries(r, agent(j), j))
      && (cancelledAt(k) || !Retries(r, agent(k), k))
  {
    LoopEnds(r, agent, cancelledAt, 1);
    hide Retries, LastAttempt;
  }

  /** A request that is not accepted fails without an attempt: for its task, or for lack of permission. */
  lemma RefusalTellsWhy(r: Request, agent: nat -> Behaviour, cancelledAt: nat -> bool)
    requires !Accepted(r)
    ensures ExpectedOutcome(r, agent, cancelledAt)
         == Outcome(Failed, Some(if !r.taskIsValid then VALIDATION_ERROR else PERMISSION_DENIED), 1, false)
    ensures ExpectedNotes(r, agent, cancelledAt)
         == [Life(Created, Created), Life(Created, Failed),
             Exec(ExecFailed, Failed, 1, Some(if !r.taskIsValid then VALIDATION_ERROR else PERMISSION_DENIED))]
  {
  }

  // ---------------------------------------------------------------------------------------------
  // The trace, event by event
  // ---------------------------------------------------------------------------------------------

  /** Where the events of attempt `j` start, behind the opening and three events for each attempt before it. */
  function EventsOf(j: nat): nat
    requires j >= 1
  {
    4 + 3 * (j - 1)
  }

  lemma {:induction false} RoundsAt(agent: nat -> Behaviour, n: nat, j: nat)
    requires 1 <= j <= n && !agent(j).Succeeds?
    ensures |Rounds(agent, n)| == EventsOf(n + 1)
    ensures var i := EventsOf(j); var notes := Rounds(agent, n);
      && notes[i] == Exec(Started, Running, j, None)
      && notes[i + 1] == Exec(Retried, Running, j, CodeOf(agent(j)))
      && notes[i + 2] == Life(Running, Running)
  {
    RoundsLength(agent, n - 1);
    if j < n {
      RoundsAt(agent, n - 1, j);
    }
  }

  lemma {:induction false} RoundsLength(agent: nat -> Behaviour, n: nat)
    ensures |Rounds(agent, n)| == EventsOf(n + 1)
    ensures Rounds(agent, n)[..4]
         == [Life(Created, Created), Life(Created, Validated), Life(Validated, Queued), Life(Queued, Running)]
  {
    if n > 0 {
      RoundsLength(agent, n - 1);
      assert Rounds(agent, n)[..4] == Rounds(agent, n - 1)[..4];
    }
  }

  /** An accepted request opens with the four lifecycle events that lead to running. */
  lemma TraceOpens(r: Request, agent: nat -> Behaviour, cancelledAt: nat -> bool)
    requires Accepted(r)
    ensures var notes := ExpectedNotes(r, agent, cancelledAt);
      |notes| > 4 && notes[..4]
        == [Life(Created, Created), Life(Created, Validated), Life(Validated, Queued), Life(Queued, Running)]
  {
    var k := LastAttempt(r, agent, cancelledAt, 1);
    LoopEnds(r, agent, cancelledAt, 1);
    RoundsLength(agent, k - 1);
    hide Rounds, LastAttempt, Retries;
    var rounds, notes := Rounds(agent, k - 1), ExpectedNotes(r, agent, cancelledAt);
    assert rounds <= notes;
    assert notes[..4] == rounds[..4];
  }

  /** Every attempt before the last one is announced, announced as retried with its error, and followed by the
      lifecycle event for running again. */
  lemma TraceOfRetried(r: Request, agent: nat -> Behaviour, cancelledAt: nat -> bool, j: nat)
    requires Accepted(r) && 1 <= j < ExpectedOutcome(r, agent, cancelledAt).attempts
    ensures var notes := ExpectedNotes(r, agent, cancelledAt); var i := EventsOf(j);
      && i + 2 < |notes|
      && notes[i] == Exec(Started, Running, j, None)
      && notes[i + 1] == Exec(Retried, Running, j, CodeOf(agent(j)))
      && notes[i + 2] == Life(Running, Running)
  {
    var k := LastAttempt(r, agent, cancelledAt, 1);
    LoopEnds(r, agent, cancelledAt, 1);
    assert Retries(r, agent(j), j);
    RoundsAt(agent, k - 1, j);
    hide Rounds, LastAttempt, CodeOf;
    assert Rounds(agent, k - 1) <= ExpectedNotes(r, agent, cancelledAt);
  }

  /** The last attempt is announced, unless it is cancelled before it starts, and the trace ends with the lifecycle
      event for its status and the execution event that says what happened. */
  lemma TraceEnds(r: Request, agent: nat -> Behaviour, cancelledAt: nat -> bool)
    requires Accepted(r)
    ensures var o := ExpectedOutcome(r, agent, cancelledAt); var k := o.attempts;
      k >= 1 && EventsOf(k) <= |ExpectedNotes(r, agent, cancelledAt)|
      && ExpectedNotes(r, agent, cancelledAt)[EventsOf(k)..]
         == if cancelledAt(k) then [Life(Running, Cancelled), Exec(ExecCancelled, Cancelled, k, None)]
           else match agent(k)
             case Succeeds =>
               [Exec(Started, Running, k, None), Life(Running, Succeeded), Exec(Completed, Succeeded, k, None)]
             case RaisesTimeout =>
               [Exec(Started, Running, k, None), Life(Running, TimedOut),
                Exec(ExecTimedOut, TimedOut, k, Some(TIMEOUT))]
             case _ =>
               [Exec(Started, Running, k, None), Life(Running, Failed), Exec(ExecFailed, Failed, k, CodeOf(agent(k)))]
  {
    var k := LastAttempt(r, agent, cancelledAt, 1);
    LoopEnds(r, agent, cancelledAt, 1);
    RoundsLength(agent, k - 1);
    hide Rounds, LastAttempt, Retries;
  }

  /** The pause after attempt i+1 is base_delay doubled i times. */
  lemma {:induction false} PausesDouble(p: RetryPolicy, n: nat, i: nat)
    requires i < n
    ensures |Pauses(Some(p), n)| == n
    ensures Pauses(Some(p), n)[0] == Times(p.baseDelay, 1.0)
    ensures i + 1 < n ==> Pauses(Some(p), n)[i + 1] == Pauses(Some(p), n)[i] + Pauses(Some(p), n)[i]
  {
    if n == 1 {
      assert Pauses(Some(p), 0) == [];
    } else {
      PausesDouble(p, n - 1, if i < n - 1 then i else 0);
    }
  }

  // ---------------------------------------------------------------------------------------------
  // Security events
  // ---------------------------------------------------------------------------------------------

  /** The intent is checked behind the task and the capabilities, if there is one; the events tell the result. */
  lemma AuditTellsIntent(r: Request, hasBus: bool)
    ensures var audit := ExpectedAudit(r, hasBus);
      && (audit == [] || audit[0] == IntentApplied) && |audit| <= 2
      && (CheckPassed in audit <==> hasBus && r.taskIsValid && r.capabilities != Refuses && r.intent == Passes)
      && (CheckDenied in audit <==> hasBus && r.taskIsValid && r.capabilities != Refuses && r.intent == Refuses)
      && (IntentApplied in audit <==> CheckPassed in audit || CheckDenied in audit)
  {
  }
}

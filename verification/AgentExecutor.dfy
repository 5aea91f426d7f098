/** The lifecycle of one agent execution: a validated state machine with a clock that starts once. */
module AgentLifecycle {

  import opened Common

  datatype State = Created | Validated | Queued | Running | Succeeded | Failed | TimedOut | Cancelled

  const TERMINAL: set<State> := {Succeeded, Failed, TimedOut, Cancelled}

  function Transitions(s: State): set<State> {
    match s
    case Created => {Validated, Failed, Cancelled}
    case Validated => {Queued, Failed, Cancelled}
    case Queued => {Running, Failed, Cancelled}
    case Running => {Succeeded, Failed, TimedOut, Cancelled, Running}
    case _ => {}
  }

  class AgentLifecycle {
    var state: State
    var startedAt: Option<int>
    var finishedAt: Option<int>

    constructor ()
      ensures state == Created && startedAt == None && finishedAt == None
    {
      state, startedAt, finishedAt := Created, None, None;
    }

    /** Refuses an invalid transition (`LifecycleError`) and then changes nothing. */
    method Transition(next: State, now: int) returns (ok: bool)
      modifies this
      ensures ok <==> next in Transitions(old(state))
      ensures !ok ==> unchanged(this)
      ensures ok ==> state == next
      ensures ok ==> startedAt == if next == Running && old(startedAt) == None then Some(now) else old(startedAt)
      ensures ok ==> finishedAt == if next in TERMINAL then Some(now) else old(finishedAt)
    {
      if next !in Transitions(state) {
        return false;
      }
      state := next;
      if next == Running && startedAt == None {
        startedAt := Some(now);
      }
      if next in TERMINAL {
        finishedAt := Some(now);
      }
      ok := true;
    }
  }

  /** A sequence of states each of which may follow its predecessor. */
  predicate Chain(states: seq<State>) {
    forall i :: 0 < i < |states| ==> states[i] in Transitions(states[i - 1])
  }

  /** Along any chain a terminal state can only be the last one, and only `running` repeats. */
  lemma {:induction false} ChainsEndInTerminal(states: seq<State>, i: nat, j: nat)
    requires Chain(states) && i < j < |states|
    ensures states[i] !in TERMINAL
    ensures states[i] == states[j] ==> states[i] == Running
    decreases j - i
  {
    assert states[i + 1] in Transitions(states[i]);
    if i + 1 < j {
      ChainsEndInTerminal(states, i + 1, j);
      ChainOnlyAdvances(states, i + 1, j);
    }
  }

  function Depth(s: State): nat {
    match s
    case Created => 0
    case Validated => 1
    case Queued => 2
    case Running => 3
    case _ => 4
  }

  /** From a state that is not terminal an execution may fail or be cancelled, go to the next depth, or keep running;
      from a terminal state it may go nowhere. */
  lemma TransitionsAre(s: State, next: State)
    ensures next in Transitions(s) <==>
      s !in TERMINAL && (next == Failed || next == Cancelled || Depth(next) == Depth(s) + 1 || s == next == Running)
  {
  }

  lemma {:induction false} ChainOnlyAdvances(states: seq<State>, i: nat, j: nat)
    requires Chain(states) && i <= j < |states|
    ensures Depth(states[i]) <= Depth(states[j])
    decreases j - i
  {
    if i < j {
      assert states[i + 1] in Transitions(states[i]);
      ChainOnlyAdvances(states, i + 1, j);
    }
  }
}

/** `AgentExecutor.execute`: checks, the attempt loop with retry, backoff and cancellation, and the numbered
    event trace. The agent's behaviour in each attempt and the moments of cancellation are arbitrary. */
module AgentExecutor {
  import opened AgentLifecycle
  import opened Common

  datatype ErrorCode = VALIDATION_ERROR | RUNTIME_ERROR | PERMISSION_DENIED | TIMEOUT | CANCELLED | UNKNOWN

  datatype AgentError = AgentError(code: ErrorCode, transient: bool)

  /** What one invocation of the agent does. A failed result may carry an error or only an error code. */
  datatype Behaviour =
    | Succeeds
    | Fails(error: Option<AgentError>, code: Option<ErrorCode>)
    | RaisesTimeout
    | RaisesValidation
    | RaisesPermission
    | RaisesOther

  datatype RetryPolicy = RetryPolicy(maxAttempts: int, baseDelay: real, retryableCodes: set<ErrorCode>)

  datatype Check = NotConfigured | Passes | Refuses

  datatype Request = Request(
    taskIsValid: bool,
    capabilities: Check,
    intent: Check,
    requestPolicy: Option<RetryPolicy>,
    agentPolicy: Option<RetryPolicy>
  )

  datatype Topic = Started | Completed | ExecFailed | ExecTimedOut | Retried | ExecCancelled

  /** The payload of an event without its sequence number. */
  datatype Note =
    | Life(previous: State, current: State)
    | Exec(topic: Topic, status: State, attempt: nat, error: Option<ErrorCode>)

  datatype Event = Event(sequence: nat, note: Note)

  datatype SecurityTopic = IntentApplied | CheckPassed | CheckDenied

  datatype Outcome = Outcome(status: State, error: Option<ErrorCode>, attempts: nat, retried: bool)

  // ---------------------------------------------------------------------------------------------
  // What each attempt leads to
  // ---------------------------------------------------------------------------------------------

  function Policy(r: Request): Option<RetryPolicy> {
    if r.requestPolicy.Some? then r.requestPolicy else r.agentPolicy
  }

  function MaxAttempts(r: Request): int { if Policy(r).Some? then Policy(r).value.maxAttempts else 1 }

  /** The error of a behaviour that is not a success. */
  function ErrorOf(b: Behaviour): AgentError
    requires !b.Succeeds?
  {
    match b
    case Fails(Some(e), _) => e
    case Fails(None, code) => AgentError(if code.Some? then code.value else RUNTIME_ERROR, false)
    case RaisesTimeout => AgentError(TIMEOUT, true)
    case RaisesValidation => AgentError(VALIDATION_ERROR, false)
    case RaisesPermission => AgentError(PERMISSION_DENIED, false)
    case RaisesOther => AgentError(RUNTIME_ERROR, true)
  }

  predicate ShouldRetry(e: AgentError, policy: Option<RetryPolicy>, attempt: nat, maxAttempts: int) {
    if policy == None || attempt >= maxAttempts then false
    else e.transient && e.code in policy.value.retryableCodes
  }

  /** Only a raised exception is ever retried; a result that reports failure is final. */
  predicate Retries(r: Request, b: Behaviour, attempt: nat) {
    !b.Succeeds? && !b.Fails? && ShouldRetry(ErrorOf(b), Policy(r), attempt, MaxAttempts(r))
  }

  function FinalStatus(b: Behaviour): State {
    match b
    case Succeeds => Succeeded
    case RaisesTimeout => TimedOut
    case _ => Failed
  }

  function FinalTopic(b: Behaviour): Topic {
    match b
    case Succeeds => Completed
    case RaisesTimeout => ExecTimedOut
    case _ => ExecFailed
  }

  function FinalError(b: Behaviour): Option<ErrorCode> {
    if b.Succeeds? then None else Some(ErrorOf(b).code)
  }

  /** 2^n. */
  function Power2(n: nat): (p: nat)
    ensures p > 0
  {
    if n == 0 then 1 else Power2(n - 1) + Power2(n - 1)
  }

  function Times(x: real, y: real): real { x * y }

  /** The pause before attempt `attempt`. */
  function Backoff(p: RetryPolicy, attempt: nat): real
    requires attempt >= 2
  {
    Times(p.baseDelay, Power2(attempt - 2) as real)
  }

  // ---------------------------------------------------------------------------------------------
  // The reference: what an execution is expected to do
  // ---------------------------------------------------------------------------------------------

  predicate Admitted(r: Request) { r.taskIsValid && !r.capabilities.Refuses? && !r.intent.Refuses? }

  function RefusalCode(r: Request): ErrorCode { if r.taskIsValid then PERMISSION_DENIED else VALIDATION_ERROR }

  /** The attempt at which the loop ends, from attempt `k` on. */
  function LastAttempt(r: Request, agent: nat -> Behaviour, cancelledAt: nat -> bool, k: nat): nat
    decreases MaxAttempts(r) - k
  {
    if cancelledAt(k) || !Retries(r, agent(k), k) then k else LastAttempt(r, agent, cancelledAt, k + 1)
  }

  const OPENING: seq<Note> :=
    [] + [Life(Created, Created)] + [Life(Created, Validated)] + [Life(Validated, Queued)] + [Life(Queued, Running)]

  function RefusalNotes(code: ErrorCode): seq<Note> {
    [] + [Life(Created, Created)] + [Life(Created, Failed)] + [Exec(ExecFailed, Failed, 1, Some(code))]
  }

  /** An attempt that is started, fails and is retried. */
  function AfterRetry(notes: seq<Note>, k: nat, error: Option<ErrorCode>): seq<Note> {
    notes + [Exec(Started, Running, k, None)] + [Exec(Retried, Running, k, error)] + [Life(Running, Running)]
  }

  /** An attempt that ends the execution. */
  function AfterFinal(notes: seq<Note>, b: Behaviour, k: nat): seq<Note> {
    notes + [Exec(Started, Running, k, None)] + [Life(Running, FinalStatus(b))]
      + [Exec(FinalTopic(b), FinalStatus(b), k, FinalError(b))]
  }

  /** A cancellation seen before attempt `k` starts. */
  function AfterCancel(notes: seq<Note>, k: nat): seq<Note> {
    notes + [Life(Running, Cancelled)] + [Exec(ExecCancelled, Cancelled, k, None)]
  }

  /** The opening and `n` retried attempts. */
  function Rounds(agent: nat -> Behaviour, n: nat): seq<Note> {
    if n == 0 then OPENING else AfterRetry(Rounds(agent, n - 1), n, FinalError(agent(n)))
  }

  function RunningNotes(agent: nat -> Behaviour, cancelledAt: nat -> bool, k: nat): seq<Note> {
    var notes := Rounds(agent, if k == 0 then 0 else k - 1);
    if cancelledAt(k) then AfterCancel(notes, k) else AfterFinal(notes, agent(k), k)
  }

  function ExpectedNotes(r: Request, agent: nat -> Behaviour, cancelledAt: nat -> bool): seq<Note> {
    if !Admitted(r) then RefusalNotes(RefusalCode(r))
    else RunningNotes(agent, cancelledAt, LastAttempt(r, agent, cancelledAt, 1))
  }

  /** A cancelled execution counts the attempt that never started and does not report its retries. */
  function ExpectedOutcome(r: Request, agent: nat -> Behaviour, cancelledAt: nat -> bool): Outcome {
    if !Admitted(r) then Outcome(Failed, Some(RefusalCode(r)), 1, false)
    else
      var k := LastAttempt(r, agent, cancelledAt, 1);
      if cancelledAt(k) then Outcome(Cancelled, None, k, false)
      else Outcome(FinalStatus(agent(k)), FinalError(agent(k)), k, k > 1)
  }

  function ExpectedAudit(r: Request, hasBus: bool): seq<SecurityTopic> {
    if !hasBus || !r.taskIsValid || r.capabilities.Refuses? || r.intent.NotConfigured? then []
    else [IntentApplied, if r.intent.Refuses? then CheckDenied else CheckPassed]
  }

  /** Notes numbered 1, 2, 3, ... in the order they are published. */
  function Numbered(notes: seq<Note>): (r: seq<Event>)
    ensures |r| == |notes| && forall i :: 0 <= i < |notes| ==> r[i] == Event(i + 1, notes[i])
  {
    if notes == [] then [] else Numbered(notes[..|notes| - 1]) + [Event(|notes|, notes[|notes| - 1])]
  }

  function PauseIf(p: Option<RetryPolicy>, attempt: nat): seq<real>
    requires attempt >= 2
  {
    if p.Some? then [Backoff(p.value, attempt)] else []
  }

  /** The pauses after attempts 1 to `n`. */
  function Pauses(p: Option<RetryPolicy>, n: nat): seq<real> {
    if n == 0 then [] else Pauses(p, n - 1) + PauseIf(p, n + 1)
  }

  function Total(xs: seq<real>): real {
    if xs == [] then 0.0 else Total(xs[..|xs| - 1]) + xs[|xs| - 1]
  }

  // ---------------------------------------------------------------------------------------------
  // The executor
  // ---------------------------------------------------------------------------------------------

  class AgentExecutor {
    const hasBus: bool
    var cancelled: bool
    var sequence: nat
    var trace: seq<Event>          // lifecycle and execution events of the current execution
    var audit: seq<SecurityTopic>  // security events of the current execution, which carry no number
    var slept: seq<real>
    var invocations: nat

    constructor (hasBus: bool)
      ensures this.hasBus == hasBus && !cancelled
    {
      this.hasBus := hasBus;
      cancelled, sequence, trace, audit, slept, invocations := false, 0, [], [], [], 0;
    }

    ghost predicate Recorded(notes: seq<Note>)
      reads `sequence, `trace
    {
      if hasBus then trace == Numbered(notes) && sequence == |notes| else trace == [] && sequence == 0
    }

    method Publish(note: Note, ghost notes: seq<Note>)
      requires Recorded(notes)
      modifies `sequence, `trace
      ensures Recorded(notes + [note])
    {
      if hasBus {
        assert (notes + [note])[..|notes|] == notes;
        sequence := sequence + 1;
        trace := trace + [Event(sequence, note)];
      }
    }

    method PublishSecurity(topic: SecurityTopic)
      modifies `audit
      ensures audit == if hasBus then old(audit) + [topic] else old(audit)
    {
      if hasBus {
        audit := audit + [topic];
      }
    }

    /** A refused task fails before anything runs. */
    method Refuse(lifecycle: AgentLifecycle, code: ErrorCode) returns (o: Outcome)
      requires lifecycle.state == Created && Recorded([] + [Life(Created, Created)])
      modifies `sequence, `trace, lifecycle
      ensures Recorded(RefusalNotes(code)) && lifecycle.state == Failed
      ensures o == Outcome(Failed, Some(code), 1, false)
    {
      var ok := lifecycle.Transition(Failed, 0);
      assert ok;
      Publish(Life(Created, Failed), [] + [Life(Created, Created)]);
      Publish(Exec(ExecFailed, Failed, 1, Some(code)), [] + [Life(Created, Created)] + [Life(Created, Failed)]);
      o := Outcome(Failed, Some(code), 1, false);
    }

    /** Moves the lifecycle one step and announces it. */
    method Advance(lifecycle: AgentLifecycle, next: State, ghost notes: seq<Note>)
      requires next in Transitions(lifecycle.state) && Recorded(notes)
      modifies `sequence, `trace, lifecycle
      ensures lifecycle.state == next && Recorded(notes + [Life(old(lifecycle.state), next)])
    {
      var previous := lifecycle.state;
      var ok := lifecycle.Transition(next, 0);
      assert ok;
      Publish(Life(previous, next), notes);
    }

    /** The checks: a refusal, or a lifecycle that is running. */
    method Admit(r: Request, lifecycle: AgentLifecycle) returns (refusal: Option<Outcome>)
      requires lifecycle.state == Created && Recorded([]) && audit == []
      modifies `sequence, `trace, `audit, lifecycle
      ensures if Admitted(r) then refusal == None && lifecycle.state == Running && Recorded(OPENING)
              else refusal == Some(Outcome(Failed, Some(RefusalCode(r)), 1, false))
                   && Recorded(RefusalNotes(RefusalCode(r)))
      ensures audit == ExpectedAudit(r, hasBus)
    {
      Publish(Life(Created, Created), []);
      ghost var first := [] + [Life(Created, Created)];
      var o: Outcome;
      if !r.taskIsValid {
        o := Refuse(lifecycle, VALIDATION_ERROR);
        return Some(o);
      }
      if r.capabilities.Refuses? {
        o := Refuse(lifecycle, PERMISSION_DENIED);
        return Some(o);
      }
      if !r.intent.NotConfigured? {
        PublishSecurity(IntentApplied);
        PublishSecurity(if r.intent.Refuses? then CheckDenied else CheckPassed);
        if r.intent.Refuses? {
          o := Refuse(lifecycle, PERMISSION_DENIED);
          return Some(o);
        }
      }
      Advance(lifecycle, Validated, first);
      Advance(lifecycle, Queued, first + [Life(Created, Validated)]);
      Advance(lifecycle, Running, first + [Life(Created, Validated)] + [Life(Validated, Queued)]);
      refusal := None;
    }

    method Cancel(lifecycle: AgentLifecycle, k: nat, ghost notes: seq<Note>) returns (o: Outcome)
      requires lifecycle.state == Running && Recorded(notes)
      modifies `sequence, `trace, lifecycle
      ensures Recorded(AfterCancel(notes, k)) && o == Outcome(Cancelled, None, k, false)
    {
      Advance(lifecycle, Cancelled, notes);
      Publish(Exec(ExecCancelled, Cancelled, k, None), notes + [Life(Running, Cancelled)]);
      o := Outcome(Cancelled, None, k, false);
    }

    method Retry(lifecycle: AgentLifecycle, error: AgentError, k: nat, ghost notes: seq<Note>)
      requires lifecycle.state == Running && Recorded(notes + [Exec(Started, Running, k, None)])
      modifies `sequence, `trace, lifecycle
      ensures lifecycle.state == Running && Recorded(AfterRetry(notes, k, Some(error.code)))
    {
      ghost var begun := notes + [Exec(Started, Running, k, None)];
      Publish(Exec(Retried, Running, k, Some(error.code)), begun);
      Advance(lifecycle, Running, begun + [Exec(Retried, Running, k, Some(error.code))]);
    }

    method Finish(lifecycle: AgentLifecycle, b: Behaviour, k: nat, retried: bool, ghost notes: seq<Note>)
      returns (o: Outcome)
      requires lifecycle.state == Running && Recorded(notes + [Exec(Started, Running, k, None)])
      modifies `sequence, `trace, lifecycle
      ensures Recorded(AfterFinal(notes, b, k)) && o == Outcome(FinalStatus(b), FinalError(b), k, retried)
    {
      ghost var begun := notes + [Exec(Started, Running, k, None)];
      Advance(lifecycle, FinalStatus(b), begun);
      Publish(Exec(FinalTopic(b), FinalStatus(b), k, FinalError(b)), begun + [Life(Running, FinalStatus(b))]);
      o := Outcome(FinalStatus(b), FinalError(b), k, retried);
    }

    /** One round of the attempt loop: the end of the execution, or nothing if the attempt is to be retried. */
    method Attempt(r: Request, b: Behaviour, cancelRequested: bool, k: nat, retried: bool, lifecycle: AgentLifecycle,
                   ghost notes: seq<Note>)
      returns (o: Option<Outcome>)
      requires k >= 1 && lifecycle.state == Running && Recorded(notes)
      modifies `sequence, `trace, `slept, `invocations, lifecycle
      ensures cancelRequested ==> Recorded(AfterCancel(notes, k)) && o == Some(Outcome(Cancelled, None, k, false))
      ensures !cancelRequested && Retries(r, b, k) ==>
        Recorded(AfterRetry(notes, k, FinalError(b))) && o == None && lifecycle.state == Running
      ensures !cancelRequested && !Retries(r, b, k) ==>
        Recorded(AfterFinal(notes, b, k)) && o == Some(Outcome(FinalStatus(b), FinalError(b), k, retried))
      ensures invocations == old(invocations) + if cancelRequested then 0 else 1
      ensures slept == if o == None then old(slept) + PauseIf(Policy(r), k + 1) else old(slept)
    {
      hide Recorded, Numbered;
      if cancelRequested {
        var c := Cancel(lifecycle, k, notes);
        return Some(c);
      }
      Publish(Exec(Started, Running, k, None), notes);
      invocations := invocations + 1;
      if !b.Succeeds? && !b.Fails? && ShouldRetry(ErrorOf(b), Policy(r), k, MaxAttempts(r)) {
        Retry(lifecycle, ErrorOf(b), k, notes);
        slept := slept + [Backoff(Policy(r).value, k + 1)];
        return None;
      }
      var f := Finish(lifecycle, b, k, retried, notes);
      o := Some(f);
    }

    /** The attempt loop. */
    method Attempts(r: Request, agent: nat -> Behaviour, cancelledAt: nat -> bool, lifecycle: AgentLifecycle)
      returns (o: Outcome)
      requires lifecycle.state == Running && Recorded(OPENING) && invocations == 0 && slept == []
      modifies `cancelled, `sequence, `trace, `slept, `invocations, lifecycle
      ensures var k := LastAttempt(r, agent, cancelledAt, 1);
        && k >= 1
        && Recorded(RunningNotes(agent, cancelledAt, k))
        && o == (if cancelledAt(k) then Outcome(Cancelled, None, k, false)
                 else Outcome(FinalStatus(agent(k)), FinalError(agent(k)), k, k > 1))
        && invocations == (if cancelledAt(k) then k - 1 else k)
        && slept == Pauses(Policy(r), k - 1)
    {
      hide Recorded, Numbered, AfterRetry, AfterFinal, AfterCancel, OPENING, FinalStatus, FinalError, PauseIf;
      var attempt, retried := 1, false;
      while true
        invariant attempt >= 1 && lifecycle.state == Running
        invariant Recorded(Rounds(agent, attempt - 1))
        invariant LastAttempt(r, agent, cancelledAt, 1) == LastAttempt(r, agent, cancelledAt, attempt)
        invariant retried == (attempt > 1) && invocations == attempt - 1
        invariant slept == Pauses(Policy(r), attempt - 1)
        decreases MaxAttempts(r) - attempt
      {
        cancelled := cancelled || cancelledAt(attempt);
        ghost var before := Rounds(agent, attempt - 1);
        var end := Attempt(r, agent(attempt), cancelledAt(attempt), attempt, retried, lifecycle, before);
        if end.Some? {
          return end.value;
        }
        attempt, retried := attempt + 1, true;
      }
    }

    /** One execution. It never runs into an invalid lifecycle transition. */
    method Execute(r: Request, agent: nat -> Behaviour, cancelledAt: nat -> bool) returns (o: Outcome)
      modifies this
      ensures Recorded(ExpectedNotes(r, agent, cancelledAt))
      ensures o == ExpectedOutcome(r, agent, cancelledAt) && o.attempts >= 1
      ensures o.status == Succeeded <==> Admitted(r) && !cancelledAt(o.attempts) && agent(o.attempts).Succeeds?
      ensures invocations == if !Admitted(r) then 0 else if o.status == Cancelled then o.attempts - 1 else o.attempts
      ensures slept == if Admitted(r) then Pauses(Policy(r), o.attempts - 1) else []
      ensures audit == ExpectedAudit(r, hasBus)
    {
      hide OPENING, AfterCancel, AfterFinal, RefusalNotes, Rounds, FinalError, ExpectedAudit;
      cancelled, sequence, trace, audit, slept, invocations := false, 0, [], [], [], 0;
      var lifecycle := new AgentLifecycle();
      var refusal := Admit(r, lifecycle);
      if refusal.Some? {
        return refusal.value;
      }
      o := Attempts(r, agent, cancelledAt, lifecycle);
    }
  }

  // ---------------------------------------------------------------------------------------------
  // What every execution guarantees
  // ---------------------------------------------------------------------------------------------

  /** The loop ends after at most max(1, max_attempts) attempts, at the first attempt that is cancelled or not
      retried; every earlier one was retried. */
  lemma {:induction false} LoopEnds(r: Request, agent: nat -> Behaviour, cancelledAt: nat -> bool, k: nat)
    ensures var n := LastAttempt(r, agent, cancelledAt, k);
      && k <= n && (n > k ==> n <= MaxAttempts(r))
      && (cancelledAt(n) || !Retries(r, agent(n), n))
      && forall j :: k <= j < n ==> !cancelledAt(j) && Retries(r, agent(j), j)
    decreases MaxAttempts(r) - k
  {
    if !(cancelledAt(k) || !Retries(r, agent(k), k)) {
      LoopEnds(r, agent, cancelledAt, k + 1);
    }
  }

  /** The states an execution's lifecycle events lead to, in order. */
  function Lives(notes: seq<Note>): seq<State> {
    if notes == [] then []
    else
      var rest, last := Lives(notes[..|notes| - 1]), notes[|notes| - 1];
      if last.Life? then rest + [last.current] else rest
  }

  function Last(notes: seq<Note>): State {
    if Lives(notes) == [] then Created else Lives(notes)[|Lives(notes)| - 1]
  }

  /** Each lifecycle event starts where the previous one ended. */
  predicate Linked(notes: seq<Note>) {
    notes == [] ||
    var init, last := notes[..|notes| - 1], notes[|notes| - 1];
    Linked(init) && (last.Life? ==> last.previous == Last(init))
  }

  function CountTopic(notes: seq<Note>, topic: Topic): nat {
    if notes == [] then 0
    else
      CountTopic(notes[..|notes| - 1], topic) +
      (if notes[|notes| - 1].Exec? && notes[|notes| - 1].topic == topic then 1 else 0)
  }

  predicate IsTerminal(n: Note) { n.Exec? && n.topic != Started && n.topic != Retried }

  lemma {:induction false} Snoc(notes: seq<Note>, n: Note)
    ensures Lives(notes + [n]) == if n.Life? then Lives(notes) + [n.current] else Lives(notes)
    ensures Linked(notes + [n]) <==>
      (Linked(notes) && (n.Life? ==> n.previous == Last(notes)))
    ensures forall t :: CountTopic(notes + [n], t) == CountTopic(notes, t) + if n.Exec? && n.topic == t then 1 else 0
  {
    assert (notes + [n])[..|notes + [n]| - 1] == notes;
  }

  /** What holds after the opening and `n` retried attempts. */
  ghost predicate MidTrace(notes: seq<Note>, n: nat) {
    && Linked(notes)
    && |Lives(notes)| == 4 + n
    && Lives(notes)[0] == Created
    && Chain(Lives(notes))
    && Lives(notes)[|Lives(notes)| - 1] == Running
    && CountTopic(notes, Started) == n
    && CountTopic(notes, Retried) == n
    && (forall i :: 0 <= i < |notes| ==> !IsTerminal(notes[i]))
    && notes != [] && notes[0] == Life(Created, Created)
  }

  lemma {:induction false} OpeningIsMidTrace()
    ensures MidTrace(OPENING, 0)
  {
    var a, b, c, d := Life(Created, Created), Life(Created, Validated), Life(Validated, Queued), Life(Queued, Running);
    Snoc([], a);
    Snoc([] + [a], b);
    Snoc([] + [a] + [b], c);
    Snoc([] + [a] + [b] + [c], d);
    assert Lives(OPENING) == [Created, Validated, Queued, Running];
  }

  lemma RetryKeepsMidTrace(notes: seq<Note>, n: nat, error: Option<ErrorCode>)
    requires n >= 1 && MidTrace(notes, n - 1)
    ensures MidTrace(AfterRetry(notes, n, error), n)
  {
    var s, t := Exec(Started, Running, n, None), Exec(Retried, Running, n, error);
    Snoc(notes, s);
    Snoc(notes + [s], t);
    Snoc(notes + [s] + [t], Life(Running, Running));
  }

  lemma {:induction false} RoundsAreMidTrace(agent: nat -> Behaviour, n: nat)
    ensures MidTrace(Rounds(agent, n), n)
  {
    hide MidTrace, AfterRetry;
    if n == 0 {
      OpeningIsMidTrace();
    } else {
      RoundsAreMidTrace(agent, n - 1);
      RetryKeepsMidTrace(Rounds(agent, n - 1), n, FinalError(agent(n)));
    }
  }

  /** Lifecycle events begin with created -> created, link up along the allowed transitions and end in the only
      terminal state, which is the outcome; exactly the last event is a terminal execution event, and it reports
      the outcome; the retried events are one less than the attempts. */
  ghost predicate WellFormedTrace(notes: seq<Note>, o: Outcome) {
    && notes != [] && notes[0] == Life(Created, Created)
    && Linked(notes)
    && Lives(notes) != [] && Lives(notes)[0] == Created
    && Chain(Lives(notes))
    && Last(notes) == o.status
    && o.status in TERMINAL
    && (forall i :: 0 <= i < |notes| ==> (IsTerminal(notes[i]) <==> i == |notes| - 1))
    && notes[|notes| - 1].status == o.status && notes[|notes| - 1].attempt == o.attempts
    && notes[|notes| - 1].error == o.error
    && CountTopic(notes, Retried) == o.attempts - 1
  }

  lemma RefusalParts(code: ErrorCode)
    ensures var notes := RefusalNotes(code);
      && Lives(notes) == [Created, Failed] && Linked(notes)
      && CountTopic(notes, Retried) == CountTopic(notes, Started) == 0
  {
    var a, b, c := Life(Created, Created), Life(Created, Failed), Exec(ExecFailed, Failed, 1, Some(code));
    Snoc([], a);
    Snoc([] + [a], b);
    Snoc([] + [a] + [b], c);
    assert Lives([]) == [] && Linked([]) && Last([] + [a]) == Created;
    hide Lives, Linked, CountTopic;
    assert RefusalNotes(code) == [] + [a] + [b] + [c];
  }

  lemma RefusalIsWellFormed(code: ErrorCode)
    ensures WellFormedTrace(RefusalNotes(code), Outcome(Failed, Some(code), 1, false))
    ensures CountTopic(RefusalNotes(code), Started) == 0
  {
    hide Lives, Linked, CountTopic;
    RefusalParts(code);
  }

  lemma CancelIsWellFormed(notes: seq<Note>, k: nat)
    requires k >= 1 && MidTrace(notes, k - 1)
    ensures WellFormedTrace(AfterCancel(notes, k), Outcome(Cancelled, None, k, false))
    ensures CountTopic(AfterCancel(notes, k), Started) == k - 1
  {
    Snoc(notes, Life(Running, Cancelled));
    Snoc(notes + [Life(Running, Cancelled)], Exec(ExecCancelled, Cancelled, k, None));
  }

  lemma FinishIsWellFormed(notes: seq<Note>, b: Behaviour, k: nat)
    requires k >= 1 && MidTrace(notes, k - 1)
    ensures WellFormedTrace(AfterFinal(notes, b, k), Outcome(FinalStatus(b), FinalError(b), k, k > 1))
    ensures CountTopic(AfterFinal(notes, b, k), Started) == k
  {
    var s, l := Exec(Started, Running, k, None), Life(Running, FinalStatus(b));
    Snoc(notes, s);
    Snoc(notes + [s], l);
    Snoc(notes + [s] + [l], Exec(FinalTopic(b), FinalStatus(b), k, FinalError(b)));
  }

  /** Every execution, whatever the agent does and whenever it is cancelled, has a well-formed trace; the started
      events count the invocations of the agent. */
  lemma EveryTraceIsWellFormed(r: Request, agent: nat -> Behaviour, cancelledAt: nat -> bool)
    ensures var o := ExpectedOutcome(r, agent, cancelledAt); var notes := ExpectedNotes(r, agent, cancelledAt);
      && WellFormedTrace(notes, o)
      && CountTopic(notes, Started)
         == (if !Admitted(r) then 0 else if o.status == Cancelled then o.attempts - 1 else o.attempts)
  {
    hide MidTrace, WellFormedTrace, AfterFinal, AfterCancel, RefusalNotes;
    if !Admitted(r) {
      RefusalIsWellFormed(RefusalCode(r));
    } else {
      var k := LastAttempt(r, agent, cancelledAt, 1);
      LoopEnds(r, agent, cancelledAt, 1);
      RoundsAreMidTrace(agent, k - 1);
      var notes := Rounds(agent, k - 1);
      if cancelledAt(k) {
        CancelIsWellFormed(notes, k);
      } else {
        FinishIsWellFormed(notes, agent(k), k);
      }
    }
  }

  /** An execution makes at most max(1, max_attempts) attempts. It reports retries exactly if it made more than
      one attempt and was not cancelled. */
  lemma AttemptsAreBounded(r: Request, agent: nat -> Behaviour, cancelledAt: nat -> bool)
    ensures var o := ExpectedOutcome(r, agent, cancelledAt);
      && 1 <= o.attempts && (o.attempts == 1 || o.attempts <= MaxAttempts(r))
      && (o.retried <==> o.attempts > 1 && o.status != Cancelled)
  {
    LoopEnds(r, agent, cancelledAt, 1);
  }

  lemma TotalSnoc(xs: seq<real>, x: real)
    ensures Total(xs + [x]) == Total(xs) + x
  {
    assert (xs + [x])[..|xs|] == xs;
  }

  lemma Geometric(d: real, q: real)
    ensures Times(d, q - 1.0) + Times(d, q) == Times(d, q + q - 1.0)
  {
  }

  /** The pauses before attempts 2 to n+1 add up to base_delay * (2^n - 1). */
  lemma {:induction false} TotalBackoff(p: RetryPolicy, n: nat)
    ensures Total(Pauses(Some(p), n)) == Times(p.baseDelay, Power2(n) as real - 1.0)
  {
    if n > 0 {
      hide Times;
      TotalBackoff(p, n - 1);
      TotalSnoc(Pauses(Some(p), n - 1), Backoff(p, n + 1));
      Geometric(p.baseDelay, Power2(n - 1) as real);
    }
  }
}

/** The agent pipeline over the kanban board. Agents, gates and git are arbitrary: `Env` says how each of them
    answers in one run. */
module Workflow {
  import opened Common
  import opened Kanban

  datatype GateName = CodeGate | SecurityGate | TestGate | DocumentationGate | ReleaseGate

  /** A gate that times out or crashes counts as `GateError`; a failed gate blocks if the policy says so. */
  datatype GateRun = GatePassed | GateSkipped | GateFailed(policyBlocks: bool) | GateError

  datatype Env = Env(
    hasResearch: bool, research: bool,
    plan: Option<nat>,                   // number of subtasks, if the planner succeeds
    hasGit: bool, createBranch: bool, branchOk: bool,
    developer: nat -> bool,              // outcome for each subtask
    changedBefore: set<string>, changedAfter: set<string>,
    implementation: bool,                // the task is of a type that must change code
    gates: map<GateName, GateRun>,       // empty if quality gates are inactive
    release: bool,                       // the quality environment is "release"
    review: bool,
    hasTester: bool, testReport: Option<int>, // failed tests, if there is a report
    hasDocumentation: bool, documentation: bool,
    commitOk: bool
  )

  /** The pipeline's steps. Both git steps record the stage name "git". */
  datatype Step =
    | Research | Planner | GitBranch | Scheduler | Developer(i: nat) | DeveloperNoop
    | Gate(g: GateName) | Reviewer | Tester | Documentation | GitCommit

  datatype Stage = Stage(step: Step, success: bool)

  datatype Error =
    | PlannerError | BranchError | DeveloperError(i: nat) | NoChanges
    | GateBlocked(g: GateName) | TestsFailed(n: int) | CommitError

  datatype Result = Result(
    success: bool, stages: seq<Stage>, errors: seq<Error>,
    subtaskCount: nat, completedCount: nat, commitRequested: bool
  )

  // ---------------------------------------------------------------------------------------------
  // The reference: which steps there are, which of them stop the run, and what they report
  // ---------------------------------------------------------------------------------------------

  predicate Blocks(r: GateRun) { r.GateError? || (r.GateFailed? && r.policyBlocks) }

  function Subtasks(e: Env): nat { if e.plan.Some? then e.plan.value else 0 }

  function FailedTests(e: Env): int { if e.hasTester && e.testReport.Some? then e.testReport.value else 0 }

  function Produced(e: Env): set<string> { e.changedAfter - e.changedBefore }

  predicate Relevant(path: string) { "src/" <= path || "tests/" <= path }

  /** An implementation task whose developers changed nothing under src/ or tests/; only seen with git. */
  predicate Noop(e: Env) { e.hasGit && e.implementation && !exists p :: p in Produced(e) && Relevant(p) }

  predicate Halts(e: Env, s: Step) {
    match s
    case Planner => e.plan.None?
    case GitBranch => e.hasGit && e.createBranch && !e.branchOk
    case Developer(i) => !e.developer(i)
    case DeveloperNoop => true
    case Gate(g) => g in e.gates && Blocks(e.gates[g])
    case Tester => FailedTests(e) > 0
    case GitCommit => e.hasGit && !e.commitOk
    case _ => false
  }

  /** The success flag of the stage a step records. */
  predicate StageOk(e: Env, s: Step) {
    match s
    case Research => e.research
    case Reviewer => e.review
    case Tester => FailedTests(e) == 0
    case Documentation => e.hasDocumentation ==> e.documentation
    case _ => !Halts(e, s)
  }

  function ErrorOf(e: Env, s: Step): Error
    requires Halts(e, s)
  {
    match s
    case Planner => PlannerError
    case GitBranch => BranchError
    case Developer(i) => DeveloperError(i)
    case DeveloperNoop => NoChanges
    case Gate(g) => GateBlocked(g)
    case Tester => TestsFailed(FailedTests(e))
    case GitCommit => CommitError
  }

  function If(c: bool, s: Step): seq<Step> { if c then [s] else [] }

  function GateStep(e: Env, g: GateName): seq<Step> {
    If(e.gates != map[] && (g == ReleaseGate ==> e.release), Gate(g))
  }

  function Developers(n: nat): seq<Step> { if n == 0 then [] else Developers(n - 1) + [Developer(n - 1)] }

  function PlanSteps(e: Env): seq<Step> { If(e.hasResearch, Research) + [Planner] }

  function SetupSteps(e: Env): seq<Step> { PlanSteps(e) + [GitBranch] + [Scheduler] }

  function DeveloperSteps(e: Env): seq<Step> { SetupSteps(e) + Developers(Subtasks(e)) }

  function CodeSteps(e: Env): seq<Step> { DeveloperSteps(e) + If(Noop(e), DeveloperNoop) + GateStep(e, CodeGate) }

  function ReviewSteps(e: Env): seq<Step> { CodeSteps(e) + [Reviewer] + GateStep(e, SecurityGate) }

  function TestSteps(e: Env): seq<Step> { ReviewSteps(e) + [Tester] + GateStep(e, TestGate) }

  function DocumentationSteps(e: Env): seq<Step> {
    TestSteps(e) + [Documentation] + GateStep(e, DocumentationGate) + GateStep(e, ReleaseGate)
  }

  /** All steps of the pipeline, in canonical order. */
  function Steps(e: Env): seq<Step> { DocumentationSteps(e) + [GitCommit] }

  /** The steps that run: up to and including the first one that stops the pipeline. */
  function Ran(e: Env, steps: seq<Step>): (r: seq<Step>)
    ensures r <= steps
  {
    if steps == [] then [] else if Halts(e, steps[0]) then [steps[0]] else [steps[0]] + Ran(e, steps[1..])
  }

  function Stages(e: Env, steps: seq<Step>): (r: seq<Stage>)
    ensures |r| == |steps| && forall i :: 0 <= i < |r| ==> r[i] == Stage(steps[i], StageOk(e, steps[i]))
  {
    if steps == [] then []
    else Stages(e, steps[..|steps| - 1]) + [Stage(steps[|steps| - 1], StageOk(e, steps[|steps| - 1]))]
  }

  function Errors(e: Env, ran: seq<Step>): seq<Error> {
    if ran != [] && Halts(e, ran[|ran| - 1]) then [ErrorOf(e, ran[|ran| - 1])] else []
  }

  ghost predicate NoneHalts(e: Env, steps: seq<Step>) { forall i :: 0 <= i < |steps| ==> !Halts(e, steps[i]) }

  lemma {:induction false} RanIs(e: Env, steps: seq<Step>, p: seq<Step>)
    requires p != [] && p <= steps && NoneHalts(e, p[..|p| - 1]) && (Halts(e, p[|p| - 1]) || p == steps)
    ensures Ran(e, steps) == p
    decreases |p|
  {
    assert steps[0] == p[0];
    if |p| == 1 {
      assert p == [p[0]];
      if !Halts(e, p[0]) {
        assert steps[1..] == [];
      }
    } else {
      assert !Halts(e, p[..|p| - 1][0]);
      assert p[1..][..|p| - 2] == p[1..|p| - 1];
      RanIs(e, steps[1..], p[1..]);
      assert p == [p[0]] + p[1..];
    }
  }

  // ---------------------------------------------------------------------------------------------
  // The engine
  // ---------------------------------------------------------------------------------------------

  class WorkflowContext {
    var stages: seq<Stage>
    var errors: seq<Error>
    var cards: seq<nat>
    var completedCount: nat
    var subtaskCount: nat
    var commitRequested: bool

    constructor ()
      ensures stages == [] && errors == [] && cards == []
      ensures completedCount == 0 && subtaskCount == 0 && !commitRequested
    {
      stages, errors, cards, completedCount, subtaskCount, commitRequested := [], [], [], 0, 0, false;
    }

    /** The stages of `steps` have been recorded and none of them stopped the run. */
    ghost predicate Passed(e: Env, steps: seq<Step>)
      reads `stages, `errors
    {
      stages == Stages(e, steps) && errors == [] && NoneHalts(e, steps)
    }

    /** The run is over before its last step. */
    ghost predicate Stopped(e: Env)
      reads `stages, `errors
    {
      Over(e) && |Ran(e, Steps(e))| < |Steps(e)|
    }

    ghost predicate Over(e: Env)
      reads `stages, `errors
    {
      var ran := Ran(e, Steps(e));
      stages == Stages(e, ran) && errors == Errors(e, ran)
    }

    /** Records the stage of one step, with its error if it stops the run. */
    method Record(e: Env, s: Step, ok: bool, halts: bool, ghost before: seq<Step>)
      requires Passed(e, before) && ok == StageOk(e, s) && halts == Halts(e, s) && before + [s] <= Steps(e)
      modifies `stages, `errors
      ensures !halts ==> Passed(e, before + [s])
      ensures halts ==> Over(e) && Ran(e, Steps(e)) == before + [s]
    {
      assert (before + [s])[..|before|] == before;
      stages := stages + [Stage(s, ok)];
      if halts {
        errors := errors + [ErrorOf(e, s)];
        RanIs(e, Steps(e), before + [s]);
      }
    }

    method Finish() returns (r: Result)
      ensures r == Result(errors == [], stages, errors, subtaskCount, completedCount, commitRequested)
    {
      r := Result(errors == [], stages, errors, subtaskCount, completedCount, commitRequested);
    }
  }

  // ---------------------------------------------------------------------------------------------
  // The board
  // ---------------------------------------------------------------------------------------------

  /** The developers that succeed one after the other, from subtask `k` on. */
  function FirstFailure(e: Env, k: nat): nat
    decreases Subtasks(e) - k
  {
    if k >= Subtasks(e) || !e.developer(k) then k else FirstFailure(e, k + 1)
  }

  function Waiting(board: nat): Card { Card(board, Backlog, false, false, "") }

  function Finished(board: nat): Card { Card(board, Done, true, false, "") }

  const FAILED_REASON := "execution failed"
  const NOOP_REASON := "Developer produced no changes in src/ or tests/ (no-op)"

  /** `n` new cards from `first` on, the first `c` of them finished and the others waiting; the older cards are
      as they were. */
  ghost predicate CardsSoFar(before: map<nat, Card>, cards: map<nat, Card>, board: nat, first: nat, n: nat, c: nat) {
    && (forall id :: id in before ==> id < first)
    && (forall id :: id in cards <==> id in before || first <= id < first + n)
    && (forall id :: id in cards ==>
          cards[id] == if id in before then before[id] else if id < first + c then Finished(board) else Waiting(board))
  }

  /** The run gets as far as the board. */
  predicate BoardReached(e: Env) { !Halts(e, Planner) && !Halts(e, GitBranch) }

  /** All developers succeed but have changed nothing relevant. */
  predicate NoopFound(e: Env) { FirstFailure(e, 0) == Subtasks(e) && Noop(e) }

  /** Subtask `j`'s card after the run: Done and gated if its developer succeeded, blocked in InProgress if it is
      the one that failed, in the Backlog if it was never reached; a no-op run blocks its last card in Done. */
  function FinalCard(e: Env, board: nat, j: nat): Card {
    if j < FirstFailure(e, 0) then
      if NoopFound(e) && j + 1 == Subtasks(e) then Finished(board).(blocked := true, reason := NOOP_REASON)
      else Finished(board)
    else if j == FirstFailure(e, 0) then Card(board, InProgress, false, true, FAILED_REASON)
    else Waiting(board)
  }

  /** What a run makes of the board: one card for each subtask, and no other card is touched. */
  ghost predicate BoardAfter(e: Env, before: map<nat, Card>, after: map<nat, Card>, board: nat, first: nat) {
    if !BoardReached(e) then after == before
    else
      && (forall id :: id in after <==> id in before || first <= id < first + Subtasks(e))
      && (forall id :: id in after ==>
            after[id] == if id in before then before[id] else FinalCard(e, board, id - first))
  }

  lemma DeveloperStep(e: Env, i: nat)
    requires i < Subtasks(e)
    ensures SetupSteps(e) + Developers(i) + [Developer(i)] == SetupSteps(e) + Developers(i + 1) <= Steps(e)
    ensures |SetupSteps(e) + Developers(i + 1)| < |Steps(e)|
  {
    DevelopersPrefix(Subtasks(e), i + 1);
  }

  lemma NoopStep(e: Env)
    ensures DeveloperSteps(e) + If(Noop(e), DeveloperNoop) <= Steps(e)
    ensures |DeveloperSteps(e)| + 1 < |Steps(e)|
    ensures !Noop(e) ==> DeveloperSteps(e) + If(Noop(e), DeveloperNoop) == DeveloperSteps(e)
  {
  }

  lemma DoneCardAdvances(before: map<nat, Card>, cards: map<nat, Card>, board: nat, first: nat, n: nat, i: nat)
    requires CardsSoFar(before, cards, board, first, n, i) && i < n
    ensures first + i in cards && cards[first + i] == Waiting(board)
    ensures CardsSoFar(before, cards[first + i := Finished(board)], board, first, n, i + 1)
  {
  }

  lemma FailedCardEndsBoard(e: Env, before: map<nat, Card>, cards: map<nat, Card>, board: nat, first: nat, i: nat)
    requires CardsSoFar(before, cards, board, first, Subtasks(e), i) && i < Subtasks(e)
    requires BoardReached(e) && FirstFailure(e, 0) == i
    ensures BoardAfter(e, before, cards[first + i := Card(board, InProgress, false, true, FAILED_REASON)], board, first)
  {
  }

  lemma DeveloperHalts(e: Env, i: nat)
    ensures Halts(e, Developer(i)) == !e.developer(i) == !StageOk(e, Developer(i))
  {
  }

  /** What becomes of the board when subtask `i`'s card has been worked on. */
  lemma WorkedCard(e: Env, before: map<nat, Card>, cards: map<nat, Card>, board: nat, first: nat, i: nat)
    requires CardsSoFar(before, cards, board, first, Subtasks(e), i) && i < Subtasks(e)
    requires BoardReached(e) && FirstFailure(e, 0) == FirstFailure(e, i)
    ensures first + i in cards && cards[first + i] == Waiting(board)
    ensures e.developer(i) ==> CardsSoFar(before, cards[first + i := Finished(board)], board, first, Subtasks(e), i + 1)
    ensures !e.developer(i) ==>
      BoardAfter(e, before, cards[first + i := Card(board, InProgress, false, true, FAILED_REASON)], board, first)
  {
    DoneCardAdvances(before, cards, board, first, Subtasks(e), i);
    if !e.developer(i) {
      FailedCardEndsBoard(e, before, cards, board, first, i);
    }
  }

  lemma CompletedCardsEndBoard(e: Env, before: map<nat, Card>, cards: map<nat, Card>, board: nat, first: nat)
    requires CardsSoFar(before, cards, board, first, Subtasks(e), Subtasks(e))
    requires BoardReached(e) && FirstFailure(e, 0) == Subtasks(e)
    ensures !Noop(e) || Subtasks(e) == 0 ==> BoardAfter(e, before, cards, board, first)
    ensures Noop(e) && Subtasks(e) > 0 ==>
      var last := first + Subtasks(e) - 1;
      && last in cards && cards[last] == Finished(board)
      && BoardAfter(e, before, cards[last := Finished(board).(blocked := true, reason := NOOP_REASON)], board, first)
  {
  }

  lemma {:induction false} FirstFailureBound(e: Env, k: nat)
    requires k <= Subtasks(e)
    ensures k <= FirstFailure(e, k) <= Subtasks(e)
    ensures forall j :: k <= j < FirstFailure(e, k) ==> e.developer(j)
    ensures FirstFailure(e, k) < Subtasks(e) ==> !e.developer(FirstFailure(e, k))
    decreases Subtasks(e) - k
  {
    if k < Subtasks(e) && e.developer(k) {
      FirstFailureBound(e, k + 1);
    }
  }

  lemma {:induction false} DevelopersPrefix(n: nat, i: nat)
    requires i <= n
    ensures Developers(i) <= Developers(n)
    decreases n
  {
    if i < n {
      DevelopersPrefix(n - 1, i);
    }
  }

  lemma StepsGrow(e: Env)
    ensures PlanSteps(e) <= SetupSteps(e) <= DeveloperSteps(e) <= CodeSteps(e) <= ReviewSteps(e) <= TestSteps(e)
    ensures TestSteps(e) <= DocumentationSteps(e) <= Steps(e)
    ensures |DocumentationSteps(e)| < |Steps(e)|
  {
  }

  lemma AllPassed(e: Env, steps: seq<Step>)
    requires NoneHalts(e, steps) && steps != []
    ensures Ran(e, steps) == steps && Errors(e, steps) == []
  {
    RanIs(e, steps, steps);
  }

  class WorkflowEngine {
    const scheduler: KanbanEngine

    constructor (scheduler: KanbanEngine)
      ensures this.scheduler == scheduler
    {
      this.scheduler := scheduler;
    }

    /** Research is optional and never stops the run; a failing planner does. */
    method RunPlanPhase(e: Env, ctx: WorkflowContext) returns (go: bool)
      requires ctx.Passed(e, [])
      modifies ctx`stages, ctx`errors, ctx`subtaskCount
      ensures go ==> ctx.Passed(e, PlanSteps(e)) && ctx.subtaskCount == Subtasks(e)
      ensures !go ==> ctx.Stopped(e) && ctx.subtaskCount == old(ctx.subtaskCount)
      ensures go <==> !Halts(e, Planner)
    {
      StepsGrow(e);
      hide SetupSteps, DeveloperSteps, CodeSteps, ReviewSteps, TestSteps, DocumentationSteps;
      hide Steps, Ran, Stages, Errors;
      hide NoneHalts;
      if e.hasResearch {
        assert [] + [Research] == If(e.hasResearch, Research);
        ctx.Record(e, Research, e.research, false, []);
      }
      ctx.Record(e, Planner, e.plan.Some?, e.plan.None?, If(e.hasResearch, Research));
      if e.plan.None? {
        return false;
      }
      ctx.subtaskCount := e.plan.value;
      go := true;
    }

    /** One gate under the policy. A gate that is not configured is recorded as skipped. */
    method RunGate(e: Env, ctx: WorkflowContext, g: GateName, ghost before: seq<Step>) returns (go: bool)
      requires ctx.Passed(e, before) && before + [Gate(g)] <= Steps(e) && |before| + 1 < |Steps(e)|
      modifies ctx`stages, ctx`errors
      ensures go ==> ctx.Passed(e, before + [Gate(g)])
      ensures !go ==> ctx.Stopped(e)
      ensures go <==> !Halts(e, Gate(g))
      ensures go <==> g !in e.gates || LetsGo(e.gates[g])
    {
      hide Steps, Ran, Stages, Errors, NoneHalts;
      if g !in e.gates {
        ctx.Record(e, Gate(g), true, false, before);
        return true;
      }
      var blocked := match e.gates[g]
        case GateError => true
        case GateFailed(policyBlocks) => policyBlocks
        case _ => false;
      ctx.Record(e, Gate(g), !blocked, blocked, before);
      go := !blocked;
    }

    /** The gate of a phase, if quality gates are active. */
    method RunGateIfActive(e: Env, ctx: WorkflowContext, g: GateName, ghost before: seq<Step>) returns (go: bool)
      requires ctx.Passed(e, before) && before + GateStep(e, g) <= Steps(e) && |before + GateStep(e, g)| < |Steps(e)|
      modifies ctx`stages, ctx`errors
      ensures go ==> ctx.Passed(e, before + GateStep(e, g))
      ensures !go ==> ctx.Stopped(e)
      ensures go <==> !(GateStep(e, g) != [] && Halts(e, Gate(g)))
    {
      hide Steps, Ran, Stages, Errors, NoneHalts;
      if e.gates != map[] && (g == ReleaseGate ==> e.release) {
        go := RunGate(e, ctx, g, before);
      } else {
        assert before + GateStep(e, g) == before;
        go := true;
      }
    }

    /** Git creates the run branch; without git, or for a caller that wants none, the step is skipped. */
    method RunBranchPhase(e: Env, ctx: WorkflowContext) returns (go: bool)
      requires ctx.Passed(e, PlanSteps(e))
      modifies ctx`stages, ctx`errors
      ensures go ==> ctx.Passed(e, PlanSteps(e) + [GitBranch])
      ensures !go ==> ctx.Stopped(e)
      ensures go <==> !Halts(e, GitBranch)
    {
      StepsGrow(e);
      hide PlanSteps, DeveloperSteps, CodeSteps, ReviewSteps, TestSteps, DocumentationSteps, Steps, Ran, Stages, Errors;
      hide NoneHalts;
      if e.hasGit && e.createBranch {
        ctx.Record(e, GitBranch, e.branchOk, !e.branchOk, PlanSteps(e));
        return e.branchOk;
      }
      ctx.Record(e, GitBranch, true, false, PlanSteps(e));
      go := true;
    }

    /** One new board with one card for each subtask. */
    method CreateCards(ctx: WorkflowContext, n: nat) returns (board: nat)
      requires ctx.cards == [] && forall id :: id in scheduler.store.cards ==> id < scheduler.store.nextId
      modifies ctx`cards, scheduler.store
      ensures board == old(scheduler.store.nextBoard)
      ensures CardsSoFar(old(scheduler.store.cards), scheduler.store.cards, board, old(scheduler.store.nextId), n, 0)
      ensures |ctx.cards| == n && forall i :: 0 <= i < n ==> ctx.cards[i] == old(scheduler.store.nextId) + i
    {
      board := scheduler.NewBoard();
      for i := 0 to n
        invariant
          CardsSoFar(old(scheduler.store.cards), scheduler.store.cards, board, old(scheduler.store.nextId), i, 0)
        invariant scheduler.store.nextId == old(scheduler.store.nextId) + i
        invariant |ctx.cards| == i && forall j :: 0 <= j < i ==> ctx.cards[j] == old(scheduler.store.nextId) + j
      {
        var id := scheduler.NewCard(board);
        ctx.cards := ctx.cards + [id];
      }
    }

    /** A waiting card goes to InProgress, and on to Done if the developer succeeds; otherwise it is blocked there.
        The board never raises an error. */
    method WorkOn(card: nat, succeeds: bool, ghost board: nat)
      requires card in scheduler.store.cards && scheduler.store.cards[card] == Waiting(board)
      modifies scheduler, scheduler.store
      ensures scheduler.store.cards == old(scheduler.store.cards)[card :=
        if succeeds then Finished(board) else Card(board, InProgress, false, true, FAILED_REASON)]
    {
      hide AfterBegin, AfterComplete, Block;
      var ok := scheduler.BeginWork(card);
      assert ok;
      if succeeds {
        ok := scheduler.CompleteWork(card);
        assert ok;
      } else {
        var _ := scheduler.BlockCard(card, FAILED_REASON);
      }
    }

    /** One subtask. */
    method RunDeveloper(e: Env, ctx: WorkflowContext, i: nat, board: nat, ghost before: map<nat, Card>,
                        ghost first: nat)
      returns (go: bool)
      requires ctx.Passed(e, SetupSteps(e) + Developers(i))
      requires i < Subtasks(e) == |ctx.cards| && ctx.cards[i] == first + i
      requires CardsSoFar(before, scheduler.store.cards, board, first, Subtasks(e), i)
      requires BoardReached(e) && FirstFailure(e, 0) == FirstFailure(e, i)
      modifies ctx`stages, ctx`errors, ctx`completedCount, scheduler, scheduler.store
      ensures go <==> e.developer(i)
      ensures go ==> ctx.Passed(e, SetupSteps(e) + Developers(i + 1))
      ensures go ==> ctx.completedCount == old(ctx.completedCount) + 1
      ensures go ==> CardsSoFar(before, scheduler.store.cards, board, first, Subtasks(e), i + 1)
      ensures !go ==> ctx.Stopped(e) && ctx.completedCount == old(ctx.completedCount)
      ensures !go ==> BoardAfter(e, before, scheduler.store.cards, board, first)
    {
      hide Subtasks, Waiting, Finished, Halts, StageOk, SetupSteps, Steps, Ran, Stages, Errors, NoneHalts, Developers;
      hide CardsSoFar, BoardAfter, FirstFailure, BoardReached, ErrorOf, Noop, Blocks;
      DeveloperStep(e, i);
      WorkedCard(e, before, scheduler.store.cards, board, first, i);
      WorkOn(ctx.cards[i], e.developer(i), board);
      if e.developer(i) {
        ctx.completedCount := ctx.completedCount + 1;
      }
      DeveloperHalts(e, i);
      ctx.Record(e, Developer(i), e.developer(i), !e.developer(i), SetupSteps(e) + Developers(i));
      go := e.developer(i);
    }

    /** The subtasks in order, up to the first failure: after `i` of them, the first `i` cards are Done, gated and
        not blocked, and the others wait in the Backlog. */
    method RunDevelopers(e: Env, ctx: WorkflowContext, board: nat, ghost before: map<nat, Card>, ghost first: nat)
      returns (go: bool)
      requires ctx.Passed(e, SetupSteps(e)) && ctx.completedCount == 0 && BoardReached(e)
      requires |ctx.cards| == Subtasks(e) && forall i :: 0 <= i < |ctx.cards| ==> ctx.cards[i] == first + i
      requires CardsSoFar(before, scheduler.store.cards, board, first, Subtasks(e), 0)
      modifies ctx`stages, ctx`errors, ctx`completedCount, scheduler, scheduler.store
      ensures go <==> FirstFailure(e, 0) == Subtasks(e)
      ensures ctx.completedCount == FirstFailure(e, 0)
      ensures go ==> ctx.Passed(e, DeveloperSteps(e))
      ensures go ==> CardsSoFar(before, scheduler.store.cards, board, first, Subtasks(e), Subtasks(e))
      ensures !go ==> ctx.Stopped(e) && BoardAfter(e, before, scheduler.store.cards, board, first)
    {
      hide SetupSteps, Steps, Ran, Stages, Errors, NoneHalts, CardsSoFar, BoardAfter;
      assert SetupSteps(e) + Developers(0) == SetupSteps(e);
      for i := 0 to Subtasks(e)
        invariant ctx.Passed(e, SetupSteps(e) + Developers(i)) && ctx.completedCount == i
        invariant CardsSoFar(before, scheduler.store.cards, board, first, Subtasks(e), i)
        invariant FirstFailure(e, 0) == FirstFailure(e, i)
      {
        go := RunDeveloper(e, ctx, i, board, before, first);
        if !go {
          return;
        }
      }
      go := true;
    }

    /** All developers have succeeded: an implementation task that changed nothing relevant fails here. */
    method CheckProduced(e: Env, ctx: WorkflowContext, board: nat, ghost before: map<nat, Card>, ghost first: nat)
      returns (go: bool)
      requires ctx.Passed(e, DeveloperSteps(e)) && BoardReached(e) && FirstFailure(e, 0) == Subtasks(e)
      requires |ctx.cards| == Subtasks(e) && forall i :: 0 <= i < |ctx.cards| ==> ctx.cards[i] == first + i
      requires CardsSoFar(before, scheduler.store.cards, board, first, Subtasks(e), Subtasks(e))
      modifies ctx`stages, ctx`errors, scheduler, scheduler.store
      ensures go <==> !Noop(e)
      ensures go ==> ctx.Passed(e, DeveloperSteps(e) + If(Noop(e), DeveloperNoop))
      ensures !go ==> ctx.Stopped(e)
      ensures BoardAfter(e, before, scheduler.store.cards, board, first)
    {
      NoopStep(e);
      CompletedCardsEndBoard(e, before, scheduler.store.cards, board, first);
      hide CardsSoFar, BoardAfter, FirstFailure, BoardReached, Block;
      hide DeveloperSteps, Steps, Ran, Stages, Errors, NoneHalts;
      if e.hasGit {
        var relevant := exists p :: p in Produced(e) && Relevant(p);
        if e.implementation && !relevant {
          assert Noop(e);
          if ctx.cards != [] {
            var _ := scheduler.BlockCard(ctx.cards[|ctx.cards| - 1], NOOP_REASON);
          }
          ctx.Record(e, DeveloperNoop, false, true, DeveloperSteps(e));
          return false;
        }
      }
      go := true;
    }

    /** The developer loop, the no-op check and the code gate. */
    method RunDeveloperPhase(e: Env, ctx: WorkflowContext, board: nat, ghost before: map<nat, Card>, ghost first: nat)
      returns (go: bool)
      requires ctx.Passed(e, SetupSteps(e)) && ctx.completedCount == 0 && BoardReached(e)
      requires |ctx.cards| == Subtasks(e) && forall i :: 0 <= i < |ctx.cards| ==> ctx.cards[i] == first + i
      requires CardsSoFar(before, scheduler.store.cards, board, first, Subtasks(e), 0)
      modifies ctx`stages, ctx`errors, ctx`completedCount, scheduler, scheduler.store
      ensures go ==> ctx.Passed(e, CodeSteps(e))
      ensures !go ==> ctx.Stopped(e)
      ensures ctx.completedCount == FirstFailure(e, 0)
      ensures BoardAfter(e, before, scheduler.store.cards, board, first)
    {
      hide BoardAfter, CardsSoFar, SetupSteps, DeveloperSteps, Ran, Stages, Errors, NoneHalts;
      go := RunDevelopers(e, ctx, board, before, first);
      if !go {
        return;
      }
      go := CheckProduced(e, ctx, board, before, first);
      if !go {
        return;
      }
      StepsGrow(e);
      go := RunGateIfActive(e, ctx, CodeGate, DeveloperSteps(e) + If(Noop(e), DeveloperNoop));
    }

    /** A reviewer's verdict is recorded but never stops the run; the security gate may. */
    method RunReviewPhase(e: Env, ctx: WorkflowContext) returns (go: bool)
      requires ctx.Passed(e, CodeSteps(e))
      modifies ctx`stages, ctx`errors
      ensures go ==> ctx.Passed(e, ReviewSteps(e))
      ensures !go ==> ctx.Stopped(e)
    {
      StepsGrow(e);
      assert CodeSteps(e) + [Reviewer] <= ReviewSteps(e);
      hide CodeSteps, TestSteps, DocumentationSteps, Steps, Ran, Stages, Errors, NoneHalts;
      ctx.Record(e, Reviewer, e.review, false, CodeSteps(e));
      go := RunGateIfActive(e, ctx, SecurityGate, CodeSteps(e) + [Reviewer]);
    }

    /** The tester stops the run if its report counts failed tests; without a report none have failed. */
    method RunTestPhase(e: Env, ctx: WorkflowContext) returns (go: bool)
      requires ctx.Passed(e, ReviewSteps(e))
      modifies ctx`stages, ctx`errors
      ensures go ==> ctx.Passed(e, TestSteps(e))
      ensures !go ==> ctx.Stopped(e)
    {
      StepsGrow(e);
      assert ReviewSteps(e) + [Tester] <= TestSteps(e);
      hide ReviewSteps, DocumentationSteps, Steps, Ran, Stages, Errors, NoneHalts;
      var failed := 0;
      if e.hasTester && e.testReport.Some? {
        failed := e.testReport.value;
      }
      ctx.Record(e, Tester, failed == 0, failed > 0, ReviewSteps(e));
      if failed > 0 {
        return false;
      }
      go := RunGateIfActive(e, ctx, TestGate, ReviewSteps(e) + [Tester]);
    }

    /** Documentation never stops the run; its gate and, in a release environment, the release gate may. */
    method RunDocumentationPhase(e: Env, ctx: WorkflowContext) returns (go: bool)
      requires ctx.Passed(e, TestSteps(e))
      modifies ctx`stages, ctx`errors
      ensures go ==> ctx.Passed(e, DocumentationSteps(e))
      ensures !go ==> ctx.Stopped(e)
    {
      StepsGrow(e);
      ghost var steps := TestSteps(e) + [Documentation];
      assert steps + GateStep(e, DocumentationGate) + GateStep(e, ReleaseGate) == DocumentationSteps(e);
      hide TestSteps, DocumentationSteps, Steps, Ran, Stages, Errors, NoneHalts;
      ctx.Record(e, Documentation, !e.hasDocumentation || e.documentation, false, TestSteps(e));
      go := RunGateIfActive(e, ctx, DocumentationGate, steps);
      if !go {
        return;
      }
      go := RunGateIfActive(e, ctx, ReleaseGate, steps + GateStep(e, DocumentationGate));
    }

    /** Git stages and commits; without git the step is skipped. */
    method RunCommitPhase(e: Env, ctx: WorkflowContext)
      requires ctx.Passed(e, DocumentationSteps(e)) && !ctx.commitRequested
      modifies ctx`stages, ctx`errors, ctx`commitRequested
      ensures ctx.Over(e) && Ran(e, Steps(e)) == Steps(e) && ctx.commitRequested == e.hasGit
    {
      ghost var steps := DocumentationSteps(e);
      assert Steps(e) == steps + [GitCommit];
      if e.hasGit {
        ctx.commitRequested := true;
      }
      ctx.Record(e, GitCommit, !e.hasGit || e.commitOk, e.hasGit && !e.commitOk, steps);
      if !Halts(e, GitCommit) {
        AllPassed(e, Steps(e));
      }
    }

    method Execute(e: Env) returns (r: Result)
      requires forall id :: id in scheduler.store.cards ==> id < scheduler.store.nextId
      modifies scheduler, scheduler.store
      ensures r.stages == Stages(e, Ran(e, Steps(e))) && r.errors == Errors(e, Ran(e, Steps(e)))
      ensures r.success <==> r.errors == []
      ensures r.subtaskCount == Subtasks(e)
      ensures r.completedCount == if BoardReached(e) then FirstFailure(e, 0) else 0
      ensures r.commitRequested <==> e.hasGit && Ran(e, Steps(e)) == Steps(e)
      ensures BoardAfter(e, old(scheduler.store.cards), scheduler.store.cards,
                         old(scheduler.store.nextBoard), old(scheduler.store.nextId))
    {
      var ctx := new WorkflowContext();
      var go := Run(e, ctx);
      r := ctx.Finish();
    }

    /** The pipeline, phase by phase, with its early exits. */
    method Run(e: Env, ctx: WorkflowContext) returns (go: bool)
      requires forall id :: id in scheduler.store.cards ==> id < scheduler.store.nextId
      requires ctx.stages == [] && ctx.errors == [] && ctx.cards == []
      requires ctx.completedCount == 0 && ctx.subtaskCount == 0 && !ctx.commitRequested
      modifies scheduler, scheduler.store, ctx
      ensures ctx.Over(e)
      ensures ctx.subtaskCount == Subtasks(e)
      ensures ctx.completedCount == if BoardReached(e) then FirstFailure(e, 0) else 0
      ensures ctx.commitRequested <==> e.hasGit && Ran(e, Steps(e)) == Steps(e)
      ensures BoardAfter(e, old(scheduler.store.cards), scheduler.store.cards,
                         old(scheduler.store.nextBoard), old(scheduler.store.nextId))
    {
      hide CardsSoFar, PlanSteps, DeveloperSteps, CodeSteps, ReviewSteps, TestSteps, DocumentationSteps, Steps;
      hide Ran, Stages, Errors, FirstFailure, NoopFound, FinalCard;
      ghost var before, board0, first := scheduler.store.cards, scheduler.store.nextBoard, scheduler.store.nextId;
      assert ctx.Passed(e, []) by {
        assert Stages(e, []) == [];
      }
      go := RunPlanPhase(e, ctx);
      if !go {
        return;
      }
      go := RunBranchPhase(e, ctx);
      if !go {
        return;
      }
      hide BoardAfter;
      var board := CreateCards(ctx, ctx.subtaskCount);
      StepsGrow(e);
      ctx.Record(e, Scheduler, true, false, PlanSteps(e) + [GitBranch]);
      hide SetupSteps;
      go := RunDeveloperPhase(e, ctx, board, before, first);
      if !go {
        return;
      }
      go := RunReviewPhase(e, ctx);
      if !go {
        return;
      }
      go := RunTestPhase(e, ctx);
      if !go {
        return;
      }
      go := RunDocumentationPhase(e, ctx);
      if !go {
        return;
      }
      RunCommitPhase(e, ctx);
    }
  }

  // ---------------------------------------------------------------------------------------------
  // What a run's result means
  // ---------------------------------------------------------------------------------------------

  /** A gate that ran lets the run go on. */
  predicate LetsGo(r: GateRun) { r == GatePassed || r == GateSkipped || r == GateFailed(false) }

  /** A file under src/ or tests/ that was not changed before the developers started. */
  ghost predicate ChangedCode(e: Env) {
    exists path: string {:trigger path in e.changedAfter} :: path in e.changedAfter && path !in e.changedBefore
      && ((|path| >= 4 && path[..4] == "src/") || (|path| >= 6 && path[..6] == "tests/"))
  }

  /** Everything before the commit went well: a plan, a branch if one was wanted, every developer, a change to the code
      if one was due, no report of failed tests, and every gate that ran passed, was skipped, or failed without the
      policy blocking. */
  ghost predicate ClearToCommit(e: Env) {
    && e.plan.Some?
    && (e.hasGit && e.createBranch ==> e.branchOk)
    && (forall i :: 0 <= i < e.plan.value ==> e.developer(i))
    && (e.hasGit && e.implementation ==> ChangedCode(e))
    && (e.hasTester && e.testReport.Some? ==> e.testReport.value <= 0)
    && (forall g :: g in e.gates && (g == ReleaseGate ==> e.release) ==> LetsGo(e.gates[g]))
  }

  lemma LetsGoIff(r: GateRun)
    ensures LetsGo(r) <==> !Blocks(r)
  {
  }

  lemma NoopIff(e: Env)
    ensures Noop(e) <==> e.hasGit && e.implementation && !ChangedCode(e)
  {
    if ChangedCode(e) {
      var path :| path in e.changedAfter && path !in e.changedBefore
        && ((|path| >= 4 && path[..4] == "src/") || (|path| >= 6 && path[..6] == "tests/"));
      assert path in Produced(e) && Relevant(path);
    }
    if path :| path in Produced(e) && Relevant(path) {
      assert path in e.changedAfter && path !in e.changedBefore;
    }
  }

  lemma NoneHaltsConcat(e: Env, a: seq<Step>, b: seq<Step>)
    ensures NoneHalts(e, a + b) <==> NoneHalts(e, a) && NoneHalts(e, b)
  {
    if NoneHalts(e, a + b) {
      forall i | 0 <= i < |a| ensures !Halts(e, a[i]) { assert (a + b)[i] == a[i]; }
      forall i | 0 <= i < |b| ensures !Halts(e, b[i]) { assert (a + b)[|a| + i] == b[i]; }
    }
  }

  lemma {:induction false} DevelopersClear(e: Env, n: nat)
    ensures NoneHalts(e, Developers(n)) <==> forall i :: 0 <= i < n ==> e.developer(i)
  {
    if n > 0 {
      DevelopersClear(e, n - 1);
      NoneHaltsConcat(e, Developers(n - 1), [Developer(n - 1)]);
      assert NoneHalts(e, [Developer(n - 1)]) <==> !Halts(e, [Developer(n - 1)][0]);
    }
  }

  lemma OneStep(e: Env, s: Step)
    ensures NoneHalts(e, [s]) <==> !Halts(e, s)
  {
    assert [s][0] == s;
  }

  lemma GateStepClear(e: Env, g: GateName)
    ensures NoneHalts(e, GateStep(e, g)) <==> (g in e.gates && (g == ReleaseGate ==> e.release) ==> !Blocks(e.gates[g]))
  {
    OneStep(e, Gate(g));
  }

  lemma SetupClear(e: Env)
    ensures NoneHalts(e, SetupSteps(e)) <==> e.plan.Some? && (e.hasGit && e.createBranch ==> e.branchOk)
  {
    NoneHaltsConcat(e, If(e.hasResearch, Research), [Planner]);
    NoneHaltsConcat(e, PlanSteps(e), [GitBranch]);
    NoneHaltsConcat(e, PlanSteps(e) + [GitBranch], [Scheduler]);
    OneStep(e, Research);
    OneStep(e, Planner);
    OneStep(e, GitBranch);
    OneStep(e, Scheduler);
  }

  lemma CodeClear(e: Env)
    ensures NoneHalts(e, CodeSteps(e)) <==>
      NoneHalts(e, SetupSteps(e)) && NoneHalts(e, Developers(Subtasks(e))) && !Noop(e)
      && NoneHalts(e, GateStep(e, CodeGate))
  {
    NoneHaltsConcat(e, SetupSteps(e), Developers(Subtasks(e)));
    NoneHaltsConcat(e, DeveloperSteps(e), If(Noop(e), DeveloperNoop));
    NoneHaltsConcat(e, DeveloperSteps(e) + If(Noop(e), DeveloperNoop), GateStep(e, CodeGate));
    OneStep(e, DeveloperNoop);
  }

  lemma LaterClear(e: Env)
    ensures NoneHalts(e, DocumentationSteps(e)) <==>
      && NoneHalts(e, CodeSteps(e)) && NoneHalts(e, GateStep(e, SecurityGate)) && FailedTests(e) <= 0
      && NoneHalts(e, GateStep(e, TestGate)) && NoneHalts(e, GateStep(e, DocumentationGate))
      && NoneHalts(e, GateStep(e, ReleaseGate))
  {
    hide NoneHalts, CodeSteps, GateStep;
    OneStep(e, Reviewer);
    OneStep(e, Tester);
    OneStep(e, Documentation);
    NoneHaltsConcat(e, CodeSteps(e), [Reviewer]);
    NoneHaltsConcat(e, CodeSteps(e) + [Reviewer], GateStep(e, SecurityGate));
    NoneHaltsConcat(e, ReviewSteps(e), [Tester]);
    NoneHaltsConcat(e, ReviewSteps(e) + [Tester], GateStep(e, TestGate));
    NoneHaltsConcat(e, TestSteps(e), [Documentation]);
    NoneHaltsConcat(e, TestSteps(e) + [Documentation], GateStep(e, DocumentationGate));
    NoneHaltsConcat(e, TestSteps(e) + [Documentation] + GateStep(e, DocumentationGate), GateStep(e, ReleaseGate));
  }

  lemma ClearMeansNoneHalts(e: Env)
    ensures NoneHalts(e, DocumentationSteps(e)) <==> ClearToCommit(e)
  {
    hide NoneHalts, DocumentationSteps, CodeSteps, SetupSteps, GateStep, Developers, Noop, ChangedCode, Blocks, LetsGo;
    NoopIff(e);
    forall r { LetsGoIff(r); }
    LaterClear(e);
    CodeClear(e);
    SetupClear(e);
    DevelopersClear(e, Subtasks(e));
    GateStepClear(e, CodeGate);
    GateStepClear(e, SecurityGate);
    GateStepClear(e, TestGate);
    GateStepClear(e, DocumentationGate);
    GateStepClear(e, ReleaseGate);
  }

  lemma RanFirst(e: Env, s: Step, rest: seq<Step>)
    ensures Ran(e, [s] + rest) == if Halts(e, s) then [s] else [s] + Ran(e, rest)
  {
    hide Halts;
    assert ([s] + rest)[1..] == rest;
  }

  lemma RanNothing(e: Env)
    ensures Ran(e, []) == [] && NoneHalts(e, [])
  {
  }

  lemma RanBehind(e: Env, s: Step, r: seq<Step>)
    requires r != [] && !Halts(e, s) && NoneHalts(e, r[..|r| - 1])
    ensures NoneHalts(e, ([s] + r)[..|r|])
  {
    hide NoneHalts, Halts;
    assert ([s] + r)[..|r|] == [s] + r[..|r| - 1];
    OneStep(e, s);
    NoneHaltsConcat(e, [s], r[..|r| - 1]);
  }

  /** What ran ends with the first step that halts, or is everything. */
  lemma {:induction false} RanStops(e: Env, steps: seq<Step>)
    requires steps != []
    ensures var r := Ran(e, steps);
      && r != [] && NoneHalts(e, r[..|r| - 1])
      && (Halts(e, r[|r| - 1]) || (r == steps && NoneHalts(e, steps)))
    decreases |steps|
  {
    hide *;
    var s, rest := steps[0], steps[1..];
    assert steps == [s] + rest;
    RanFirst(e, s, rest);
    RanNothing(e);
    OneStep(e, s);
    NoneHaltsConcat(e, [s], rest);
    if Halts(e, s) || rest == [] {
      assert [s] + [] == [s] && [s][..0] == [];
    } else {
      RanStops(e, rest);
      RanBehind(e, s, Ran(e, rest));
    }
  }

  /** A commit is requested exactly if everything before it went well; in particular every subtask is completed. */
  lemma CommitIffClear(e: Env)
    ensures Ran(e, Steps(e)) == Steps(e) <==> ClearToCommit(e)
    ensures Ran(e, Steps(e)) == Steps(e) ==> BoardReached(e) && FirstFailure(e, 0) == Subtasks(e)
  {
    ClearMeansNoneHalts(e);
    var before := DocumentationSteps(e);
    RanStops(e, Steps(e));
    if ClearToCommit(e) {
      assert Steps(e)[..|Steps(e)| - 1] == before;
      assert NoneHalts(e, before);
      assert Ran(e, Steps(e)) == Steps(e) by {
        if !Halts(e, GitCommit) {
          OneStep(e, GitCommit);
          NoneHaltsConcat(e, before, [GitCommit]);
        }
        RanIs(e, Steps(e), Steps(e));
      }
    } else if Ran(e, Steps(e)) == Steps(e) {
      assert Steps(e)[..|Steps(e)| - 1] == before;
    }
    FirstFailureBound(e, 0);
  }

  /** A run succeeds exactly if everything before the commit went well and the commit did too. */
  lemma SuccessIff(e: Env)
    ensures Errors(e, Ran(e, Steps(e))) == [] <==> ClearToCommit(e) && (e.hasGit ==> e.commitOk)
  {
    hide ClearToCommit, Steps, Ran;
    CommitIffClear(e);
    CommitIsLast(e);
    RanStops(e, Steps(e));
  }

  lemma CommitIsLast(e: Env)
    ensures Steps(e) != [] && Steps(e)[|Steps(e)| - 1] == GitCommit
  {
    hide DocumentationSteps;
  }

  lemma StepsNotEmpty(e: Env)
    ensures Steps(e) != []
  {
  }

  /** Every early exit leaves exactly one error: that of the last recorded stage, which is marked failed. All
      other errors are impossible, so a run has at most one. */
  lemma EarlyExitLeavesItsError(e: Env)
    requires |Ran(e, Steps(e))| < |Steps(e)|
    ensures var ran := Ran(e, Steps(e)); var last := ran[|ran| - 1];
      && ran <= Steps(e)
      && Halts(e, last) && Errors(e, ran) == [ErrorOf(e, last)] && !StageOk(e, last)
      && forall i :: 0 <= i < |ran| - 1 ==> !Halts(e, ran[i])
  {
    hide Steps, Ran, Noop;
    var ran := Ran(e, Steps(e));
    StepsNotEmpty(e);
    RanStops(e, Steps(e));
    forall i | 0 <= i < |ran| - 1 ensures !Halts(e, ran[i]) {
      assert ran[..|ran| - 1][i] == ran[i];
    }
  }

  lemma {:induction false} SameHaltsSameRun(e: Env, e': Env, steps: seq<Step>)
    requires forall s :: Halts(e, s) == Halts(e', s)
    ensures Ran(e, steps) == Ran(e', steps)
    decreases |steps|
  {
    if steps != [] && !Halts(e, steps[0]) {
      SameHaltsSameRun(e, e', steps[1..]);
    }
  }

  /** Success does not mean that every stage succeeded: the verdicts of research, reviewer and documentation
      change neither which steps run nor whether the run succeeds. */
  lemma VerdictsDoNotDecide(e: Env, research: bool, review: bool, documentation: bool)
    ensures var e' := e.(research := research, review := review, documentation := documentation);
      && Steps(e') == Steps(e) && Ran(e', Steps(e')) == Ran(e, Steps(e))
      && Errors(e', Ran(e', Steps(e'))) == Errors(e, Ran(e, Steps(e)))
  {
    var e' := e.(research := research, review := review, documentation := documentation);
    SameSteps(e, research, review, documentation);
    SameHaltsSameRun(e, e', Steps(e));
    hide Steps, Ran, Halts, ErrorOf;
    var ran := Ran(e, Steps(e));
    if ran != [] && Halts(e, ran[|ran| - 1]) {
      SameError(e, research, review, documentation, ran[|ran| - 1]);
    }
  }

  lemma SameSteps(e: Env, research: bool, review: bool, documentation: bool)
    ensures var e' := e.(research := research, review := review, documentation := documentation);
      Steps(e') == Steps(e) && forall s :: Halts(e, s) == Halts(e', s)
  {
  }

  lemma SameError(e: Env, research: bool, review: bool, documentation: bool, s: Step)
    requires Halts(e, s)
    ensures var e' := e.(research := research, review := review, documentation := documentation);
      Halts(e', s) && ErrorOf(e', s) == ErrorOf(e, s)
  {
  }
}

/** What a pipeline run did and reports, in terms of how the agents, the gates and git answered. */
module WorkflowResults {
  import opened Common
  import opened Kanban
  import opened Workflow

  // ---------------------------------------------------------------------------------------------
  // Which steps there are, and in which order
  // ---------------------------------------------------------------------------------------------

  /** The place of a step in the pipeline. */
  function Place(s: Step): nat {
    match s
    case Research => 0
    case Planner => 1
    case GitBranch => 2
    case Scheduler => 3
    case Developer(_) => 4
    case DeveloperNoop => 5
    case Gate(CodeGate) => 6
    case Reviewer => 7
    case Gate(SecurityGate) => 8
    case Tester => 9
    case Gate(TestGate) => 10
    case Documentation => 11
    case Gate(DocumentationGate) => 12
    case Gate(ReleaseGate) => 13
    case GitCommit => 14
  }

  /** Developers work in the order of their subtasks. */
  predicate Earlier(a: Step, b: Step) {
    Place(a) < Place(b) || (a.Developer? && b.Developer? && a.i < b.i)
  }

  ghost predicate InOrder(steps: seq<Step>) {
    forall i, j :: 0 <= i < j < |steps| ==> Earlier(steps[i], steps[j])
  }

  ghost predicate Below(steps: seq<Step>, n: nat) { forall s :: s in steps ==> Place(s) < n }

  lemma AddStep(steps: seq<Step>, c: bool, s: Step)
    requires InOrder(steps) && Below(steps, Place(s))
    ensures InOrder(steps + If(c, s)) && Below(steps + If(c, s), Place(s) + 1)
    ensures forall x :: x in steps + If(c, s) <==> x in steps || (c && x == s)
  {
    hide Place;
    var all := steps + If(c, s);
    assert forall i :: 0 <= i < |steps| ==> all[i] == steps[i] && steps[i] in steps;
  }

  lemma {:induction false} AddDevelopers(steps: seq<Step>, n: nat)
    requires InOrder(steps) && Below(steps, 4)
    ensures InOrder(steps + Developers(n)) && Below(steps + Developers(n), 5)
    ensures forall x :: x in steps + Developers(n) <==> x in steps || (x.Developer? && x.i < n)
  {
    if n == 0 {
      assert steps + Developers(0) == steps;
    } else {
      AddDevelopers(steps, n - 1);
      var all := steps + Developers(n - 1);
      assert steps + Developers(n) == all + [Developer(n - 1)];
      forall i | 0 <= i < |all| ensures Earlier(all[i], Developer(n - 1)) {
        assert all[i] in all;
        assert all[i] in steps || (all[i].Developer? && all[i].i < n - 1);
      }
    }
  }

  /** A gate is run in its place if quality gates are active, the release gate only for a release. */
  predicate GateIsDue(e: Env, g: GateName) { e.gates != map[] && (g != ReleaseGate || e.release) }

  /** The steps that are in `steps`, and `s` if `c` holds. */
  ghost predicate Adds(all: seq<Step>, steps: seq<Step>, c: bool, s: Step) {
    forall x :: x in all <==> x in steps || (c && x == s)
  }

  lemma Add(steps: seq<Step>, c: bool, s: Step, all: seq<Step>, n: nat)
    requires InOrder(steps) && Below(steps, n) && n <= Place(s) && all == steps + If(c, s)
    ensures InOrder(all) && Below(all, Place(s) + 1) && Adds(all, steps, c, s)
  {
    hide Place, Earlier;
    AddStep(steps, c, s);
  }

  lemma Places()
    ensures Place(Research) == 0 && Place(Planner) == 1 && Place(GitBranch) == 2 && Place(Scheduler) == 3
    ensures Place(DeveloperNoop) == 5 && Place(Gate(CodeGate)) == 6 && Place(Reviewer) == 7
    ensures Place(Gate(SecurityGate)) == 8 && Place(Tester) == 9 && Place(Gate(TestGate)) == 10
    ensures Place(Documentation) == 11 && Place(Gate(DocumentationGate)) == 12
    ensures Place(Gate(ReleaseGate)) == 13 && Place(GitCommit) == 14
  {
  }

  lemma PlanInOrder(e: Env)
    ensures InOrder(PlanSteps(e)) && Below(PlanSteps(e), 2)
    ensures forall s :: s in PlanSteps(e) <==> (s == Research && e.hasResearch) || s == Planner
  {
  }

  lemma SetupInOrder(e: Env)
    ensures InOrder(SetupSteps(e)) && Below(SetupSteps(e), 4)
    ensures forall s :: s in SetupSteps(e) <==> s in PlanSteps(e) || s == GitBranch || s == Scheduler
  {
    hide Place, InOrder, Below, PlanSteps;
    Places();
    PlanInOrder(e);
    Add(PlanSteps(e), true, GitBranch, PlanSteps(e) + [GitBranch], 2);
    Add(PlanSteps(e) + [GitBranch], true, Scheduler, SetupSteps(e), 3);
  }

  lemma CodeInOrder(e: Env)
    ensures InOrder(CodeSteps(e)) && Below(CodeSteps(e), 7)
    ensures forall s :: s in CodeSteps(e) <==>
      s in SetupSteps(e) || (s.Developer? && s.i < Subtasks(e)) || (s == DeveloperNoop && Noop(e))
      || (s == Gate(CodeGate) && GateIsDue(e, CodeGate))
  {
    hide Place, Earlier, SetupSteps, Noop, Subtasks, InOrder, Below;
    Places();
    SetupInOrder(e);
    AddDevelopers(SetupSteps(e), Subtasks(e));
    var checked := DeveloperSteps(e) + If(Noop(e), DeveloperNoop);
    Add(DeveloperSteps(e), Noop(e), DeveloperNoop, checked, 5);
    Add(checked, GateIsDue(e, CodeGate), Gate(CodeGate), CodeSteps(e), 6);
  }

  lemma ReviewInOrder(e: Env)
    ensures InOrder(ReviewSteps(e)) && Below(ReviewSteps(e), 9)
    ensures forall s :: s in ReviewSteps(e) <==>
      s in CodeSteps(e) || s == Reviewer || (s == Gate(SecurityGate) && GateIsDue(e, SecurityGate))
  {
    hide Place, CodeSteps, InOrder, Below;
    Places();
    CodeInOrder(e);
    var reviewed := CodeSteps(e) + [Reviewer];
    Add(CodeSteps(e), true, Reviewer, reviewed, 7);
    Add(reviewed, GateIsDue(e, SecurityGate), Gate(SecurityGate), ReviewSteps(e), 8);
  }

  lemma TestInOrder(e: Env)
    ensures InOrder(TestSteps(e)) && Below(TestSteps(e), 11)
    ensures forall s :: s in TestSteps(e) <==>
      s in ReviewSteps(e) || s == Tester || (s == Gate(TestGate) && GateIsDue(e, TestGate))
  {
    hide Place, ReviewSteps, InOrder, Below;
    Places();
    ReviewInOrder(e);
    var tested := ReviewSteps(e) + [Tester];
    Add(ReviewSteps(e), true, Tester, tested, 9);
    Add(tested, GateIsDue(e, TestGate), Gate(TestGate), TestSteps(e), 10);
  }

  lemma DocumentationInOrder(e: Env)
    ensures InOrder(DocumentationSteps(e)) && Below(DocumentationSteps(e), 14)
    ensures forall s :: s in DocumentationSteps(e) <==>
      s in TestSteps(e) || s == Documentation || (s == Gate(DocumentationGate) && GateIsDue(e, DocumentationGate))
      || (s == Gate(ReleaseGate) && GateIsDue(e, ReleaseGate))
  {
    hide Place, TestSteps, InOrder, Below;
    Places();
    TestInOrder(e);
    var written := TestSteps(e) + [Documentation];
    var checked := written + GateStep(e, DocumentationGate);
    Add(TestSteps(e), true, Documentation, written, 11);
    Add(written, GateIsDue(e, DocumentationGate), Gate(DocumentationGate), checked, 12);
    Add(checked, GateIsDue(e, ReleaseGate), Gate(ReleaseGate), DocumentationSteps(e), 13);
  }

  lemma AllInOrder(e: Env)
    ensures InOrder(Steps(e))
    ensures forall s :: s in Steps(e) <==> s in DocumentationSteps(e) || s == GitCommit
  {
    hide Place, DocumentationSteps, InOrder, Below;
    Places();
    DocumentationInOrder(e);
    Add(DocumentationSteps(e), true, GitCommit, Steps(e), 14);
  }

  lemma StepPresent(e: Env, s: Step)
    ensures s in Steps(e) <==>
      || (s == Research && e.hasResearch) || (s.Developer? && s.i < Subtasks(e)) || (s == DeveloperNoop && Noop(e))
      || (s.Gate? && GateIsDue(e, s.g))
      || s in {Planner, GitBranch, Scheduler, Reviewer, Tester, Documentation, GitCommit}
  {
    AllInOrder(e);
    DocumentationInOrder(e);
    TestInOrder(e);
    ReviewInOrder(e);
    CodeInOrder(e);
    SetupInOrder(e);
    PlanInOrder(e);
    hide Steps, DocumentationSteps, TestSteps, ReviewSteps, CodeSteps, SetupSteps, PlanSteps, InOrder, Below;
    hide Subtasks, Noop, GateIsDue;
    assert s.Gate? ==>
      s.g.CodeGate? || s.g.SecurityGate? || s.g.TestGate? || s.g.DocumentationGate? || s.g.ReleaseGate?;
  }

  /** The pipeline's steps are in their places, and they are: research if there is a researcher, the planner, the
      branch, the scheduler, one developer for each subtask, a no-op step if code was due and none changed, the
      reviewer, the tester, documentation, the commit, and between them every gate that is due. */
  lemma StepsAre(e: Env, s: Step)
    ensures InOrder(Steps(e))
    ensures s in Steps(e) <==>
      match s
      case Research => e.hasResearch
      case Developer(i) => e.plan.Some? && i < e.plan.value
      case DeveloperNoop => e.hasGit && e.implementation && !ChangedCode(e)
      case Gate(g) => GateIsDue(e, g)
      case _ => true
  {
    AllInOrder(e);
    StepPresent(e, s);
    NoopIff(e);
    hide Steps, Noop, ChangedCode, InOrder, GateIsDue;
  }

  // ---------------------------------------------------------------------------------------------
  // What each step reports, and which of them stop the run
  // ---------------------------------------------------------------------------------------------

  /** The tester has reported failed tests. */
  predicate TestsFail(e: Env) { e.hasTester && e.testReport.Some? && e.testReport.value > 0 }

  /** A step stops the run exactly if the planner fails, the branch cannot be made, a developer fails, no code was
      changed where it was due, a gate crashes or is blocked by the policy, tests fail, or the commit fails. Whatever
      research, scheduler, reviewer and documentation answer, the run goes on. */
  lemma StopsIff(e: Env, s: Step)
    ensures Halts(e, s) <==>
      match s
      case Planner => e.plan.None?
      case GitBranch => e.hasGit && e.createBranch && !e.branchOk
      case Developer(i) => !e.developer(i)
      case DeveloperNoop => true
      case Gate(g) => g in e.gates && (e.gates[g] == GateError || e.gates[g] == GateFailed(true))
      case Tester => TestsFail(e)
      case GitCommit => e.hasGit && !e.commitOk
      case _ => false
  {
  }

  /** The error that a run leaves when a step stops it. */
  lemma StopLeaves(e: Env, s: Step)
    requires Halts(e, s)
    ensures s.Planner? ==> ErrorOf(e, s) == PlannerError
    ensures s.GitBranch? ==> ErrorOf(e, s) == BranchError
    ensures s.Developer? ==> ErrorOf(e, s) == DeveloperError(s.i)
    ensures s.DeveloperNoop? ==> ErrorOf(e, s) == NoChanges
    ensures s.Gate? ==> ErrorOf(e, s) == GateBlocked(s.g)
    ensures s.Tester? ==> TestsFail(e) && ErrorOf(e, s) == TestsFailed(e.testReport.value)
    ensures s.GitCommit? ==> ErrorOf(e, s) == CommitError
  {
  }

  /** A stage is marked successful exactly if its agent succeeded, or it was skipped; a gate, if it did not stop the
      run; the tester, if no report counts a failed test. */
  lemma StageSucceedsIff(e: Env, s: Step)
    ensures StageOk(e, s) <==>
      match s
      case Research => e.research
      case Planner => e.plan.Some?
      case GitBranch => !e.hasGit || !e.createBranch || e.branchOk
      case Scheduler => true
      case Developer(i) => e.developer(i)
      case DeveloperNoop => false
      case Gate(g) => g !in e.gates || LetsGo(e.gates[g])
      case Reviewer => e.review
      case Tester => !e.hasTester || e.testReport.None? || e.testReport.value == 0
      case Documentation => !e.hasDocumentation || e.documentation
      case GitCommit => !e.hasGit || e.commitOk
  {
  }

  /** A run that stops early stops at the first step that stops it, and leaves its error. */
  lemma EarlyStop(e: Env, k: nat)
    requires k < |Steps(e)| && Halts(e, Steps(e)[k]) && forall i :: 0 <= i < k ==> !Halts(e, Steps(e)[i])
    ensures Ran(e, Steps(e)) == Steps(e)[..k + 1]
    ensures Errors(e, Ran(e, Steps(e))) == [ErrorOf(e, Steps(e)[k])]
  {
    hide Steps, Ran, Halts;
    var p := Steps(e)[..k + 1];
    assert p[..|p| - 1] == Steps(e)[..k];
    RanIs(e, Steps(e), p);
  }

  /** A gate that crashed or timed out stops every run that reaches it: no step behind it runs, nothing is committed,
      and the only error is that the gate blocked. */
  lemma CrashedGateStops(e: Env, g: GateName, k: nat)
    requires k < |Steps(e)| && Steps(e)[k] == Gate(g) && g in e.gates && e.gates[g] == GateError
    requires forall i :: 0 <= i < k ==> !Halts(e, Steps(e)[i])
    ensures Ran(e, Steps(e)) == Steps(e)[..k + 1] && k + 1 < |Steps(e)|
    ensures Errors(e, Ran(e, Steps(e))) == [GateBlocked(g)]
  {
    hide Ran, Steps;
    StopsIff(e, Gate(g));
    EarlyStop(e, k);
    StopLeaves(e, Gate(g));
    StepsEnd(e);
  }

  lemma StepsEnd(e: Env)
    ensures |Steps(e)| > 0 && Steps(e)[|Steps(e)| - 1] == GitCommit
  {
  }

  // ---------------------------------------------------------------------------------------------
  // The board
  // ---------------------------------------------------------------------------------------------

  /** The developers of the subtasks before `j` succeed. */
  predicate SucceedBefore(e: Env, j: nat) { forall i :: 0 <= i < j ==> e.developer(i) }

  lemma FirstFailureIs(e: Env, j: nat)
    requires j < Subtasks(e)
    ensures SucceedBefore(e, j) <==> j <= FirstFailure(e, 0)
    ensures SucceedBefore(e, j + 1) <==> j < FirstFailure(e, 0)
  {
    FirstFailureBound(e, 0);
    hide Subtasks, FirstFailure;
  }

  /** The card of a subtask after a run that got as far as the board: in Done with its gate passed if its developer and
      all before it succeeded; blocked in InProgress if its developer is the first that failed; and as it was created,
      in the Backlog, if that was an earlier one. A run without a change to the code that was due blocks the last card,
      in Done. */
  lemma CardTells(e: Env, board: nat, j: nat)
    requires e.plan.Some? && j < e.plan.value
    ensures var card := FinalCard(e, board, j);
      if SucceedBefore(e, j + 1) then
        if SucceedBefore(e, e.plan.value) && j + 1 == e.plan.value && e.hasGit && e.implementation && !ChangedCode(e)
        then card == Card(board, Done, true, true, NOOP_REASON)
        else card == Card(board, Done, true, false, "")
      else if SucceedBefore(e, j) then card == Card(board, InProgress, false, true, "execution failed")
      else card == Card(board, Backlog, false, false, "")
  {
    FirstFailureIs(e, j);
    FirstFailureIs(e, e.plan.value - 1);
    FirstFailureBound(e, 0);
    NoopIff(e);
    hide ChangedCode, Noop, FirstFailure, SucceedBefore;
  }

  /** The number of completed subtasks is the number of developers that succeeded before the first failure. */
  lemma CompletedTells(e: Env)
    ensures var n := FirstFailure(e, 0);
      && n <= Subtasks(e) && SucceedBefore(e, n) && (n < Subtasks(e) ==> !e.developer(n))
    ensures Subtasks(e) == if e.plan.Some? then e.plan.value else 0
    ensures BoardReached(e) <==> e.plan.Some? && (e.hasGit && e.createBranch ==> e.branchOk)
  {
    FirstFailureBound(e, 0);
  }
}

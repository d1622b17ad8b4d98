/**
  Why the walker stops: a lexicographic rank over replans left, the phase of the
  attempt, and the work left in the plan, which every dispatch that goes on lowers.
 */
module Termination {
  import opened State
  import opened NodeTypes
  import opened ReplanCoordinator
  import opened Runtime
  import opened Events
  import opened PlanProgress
  import ExecutorNode
  import StrictReviewNode
  import ApprovalNode

  function Max(a: int, b: int): int {
    if a > b then a else b
  }

  /** Dispatches one sub-task can still cost, seen from the executor. */
  function RunWeight(cfg: Config, sub: SubTask): (n: nat)
    ensures n >= 1
  {
    if AlreadyDone(sub) then 1 else Max(2, 2 * (cfg.maxRetriesPerSub - sub.attempts))
  }

  /** The same, seen from the strict reviewer. */
  function ReviewWeight(cfg: Config, sub: SubTask): (n: nat)
    ensures n >= 1
  {
    2 * Max(0, cfg.maxRetriesPerSub - sub.attempts) + 1
  }

  function Rest(cfg: Config, plan: seq<SubTask>, from: nat): nat
    decreases |plan| - from
  {
    if from >= |plan| then 0 else RunWeight(cfg, plan[from]) + Rest(cfg, plan, from + 1)
  }

  /** Work left in the plan. */
  function PlanWork(cfg: Config, v: View): nat {
    match v.step
    case Executor => if InRange(v.s) then Rest(cfg, v.s.plan, v.s.currentIdx) else 0
    case StrictReview =>
      if InRange(v.s) then ReviewWeight(cfg, v.s.plan[v.s.currentIdx]) + Rest(cfg, v.s.plan, v.s.currentIdx + 1) else 0
    case Approval =>
      if v.s.interrupt.Some? then 0 else 1 + (if InRange(v.s) then Rest(cfg, v.s.plan, v.s.currentIdx) else 0)
    case _ => 0
  }

  function Phase(step: RuntimeStep): nat {
    match step
    case Planner => 3
    case Executor => 2
    case StrictReview => 2
    case Approval => 2
    case Reviewer => 1
    case _ => 0
  }

  function ReplansLeft(cfg: Config, c: Coordinator): nat {
    Max(0, MaxAttempts(cfg) - Attempts(c))
  }

  /** A replan setup that finds nothing recorded passes on without using up an attempt. */
  function Rounds(cfg: Config, c: Coordinator, step: RuntimeStep): nat {
    ReplansLeft(cfg, c) + if step == ReplanSetup && c.None? then 1 else 0
  }

  /** A recorded rejection still has an attempt left. */
  predicate CanReplan(cfg: Config, c: Coordinator, step: RuntimeStep) {
    step == ReplanSetup && c.Some? ==> ReplansLeft(cfg, c) > 0
  }

  predicate Lower(cfg: Config, c': Coordinator, v': View, c: Coordinator, v: View) {
    || Rounds(cfg, c', v'.step) < Rounds(cfg, c, v.step)
    || (Rounds(cfg, c', v'.step) == Rounds(cfg, c, v.step)
        && (|| Phase(v'.step) < Phase(v.step)
            || (Phase(v'.step) == Phase(v.step) && PlanWork(cfg, v') < PlanWork(cfg, v))))
  }

  /** Rewriting entries before a position does not change the work after it. */
  lemma {:induction false} RestSame(cfg: Config, a: seq<SubTask>, b: seq<SubTask>, from: nat)
    requires |a| == |b| && forall j :: from <= j < |a| ==> a[j] == b[j]
    ensures Rest(cfg, a, from) == Rest(cfg, b, from)
    decreases |a| - from
  {
    if from < |a| {
      RestSame(cfg, a, b, from + 1);
    }
  }

  /** Passing leaves exactly the work after the pointer. */
  lemma PassWork(cfg: Config, s: HermesState, out: NodeOutput)
    requires InRange(s) && PassOutput(cfg, s, out)
    ensures var v' := View(Effect(s, NodeWrite(s, out)), out.nextStep);
      v'.step == Executor ==> PlanWork(cfg, v') == Rest(cfg, s.plan, s.currentIdx + 1)
    ensures out.nextStep == Executor || out.nextStep == Reviewer || out.nextStep == Terminal
  {
    NodeWriteShape(s, out);
    var s' := Effect(s, NodeWrite(s, out));
    assert s'.currentIdx == s.currentIdx + 1 && |s'.plan| == |s.plan|;
    RestSame(cfg, s.plan, s'.plan, s.currentIdx + 1);
  }

  /** Staying replaces the weight of the entry at the pointer. */
  lemma StayWork(cfg: Config, s: HermesState, out: NodeOutput)
    requires InRange(s) && |out.updates| == 1 && Stays(s, out.updates[0]) && out.updates[0].plan.Some?
    ensures var v' := View(Effect(s, NodeWrite(s, out)), out.nextStep);
      var sub := out.updates[0].plan.value[s.currentIdx];
      && (v'.step == Executor ==> PlanWork(cfg, v') == RunWeight(cfg, sub) + Rest(cfg, s.plan, s.currentIdx + 1))
      && (v'.step == StrictReview ==> PlanWork(cfg, v') == ReviewWeight(cfg, sub) + Rest(cfg, s.plan, s.currentIdx + 1))
  {
    NodeWriteShape(s, out);
    var s' := Effect(s, NodeWrite(s, out));
    assert s'.currentIdx == s.currentIdx && s'.plan == out.updates[0].plan.value;
    RestSame(cfg, s.plan, s'.plan, s.currentIdx + 1);
  }

  lemma HandOffSpendsAttempt(s: HermesState, res: ExecutorNode.RunResult)
    requires InRange(s)
    ensures var u := ExecutorNode.HandOff(s, res).updates[0];
      u.plan.Some? && |u.plan.value| == |s.plan|
      && u.plan.value[s.currentIdx].attempts == s.plan[s.currentIdx].attempts + 1
  {
  }

  /** Inside one plan: the output ends or halts the run, leaves the plan, or shrinks the work. */
  predicate Falls(cfg: Config, v: View, out: NodeOutput) {
    || out.nextStep == Terminal || out.halt
    || Phase(out.nextStep) < 2
    || (Phase(out.nextStep) == 2
        && PlanWork(cfg, View(Effect(v.s, NodeWrite(v.s, out)), out.nextStep)) < PlanWork(cfg, v))
  }

  lemma FallsByWork(cfg: Config, v: View, out: NodeOutput, v': View)
    requires v' == View(Effect(v.s, NodeWrite(v.s, out)), out.nextStep)
    requires Phase(v'.step) <= 2 && (Phase(v'.step) == 2 ==> PlanWork(cfg, v') < PlanWork(cfg, v))
    ensures Falls(cfg, v, out)
  {
  }

  lemma WorkHere(cfg: Config, s: HermesState, step: RuntimeStep)
    requires InRange(s) && (step.Executor? || step.StrictReview?)
    ensures PlanWork(cfg, View(s, step)) > Rest(cfg, s.plan, s.currentIdx + 1)
  {
  }

  lemma PassFalls(cfg: Config, s: HermesState, step: RuntimeStep, out: NodeOutput)
    requires InRange(s) && PassOutput(cfg, s, out) && (step.Executor? || step.StrictReview?)
    ensures Falls(cfg, View(s, step), out)
  {
    PassWork(cfg, s, out);
    WorkHere(cfg, s, step);
    FallsByWork(cfg, View(s, step), out, View(Effect(s, NodeWrite(s, out)), out.nextStep));
  }

  lemma HandOffFalls(cfg: Config, s: HermesState, res: ExecutorNode.RunResult)
    requires InRange(s) && !AlreadyDone(s.plan[s.currentIdx])
    ensures Falls(cfg, View(s, Executor), ExecutorNode.HandOff(s, res))
  {
    HandOffStays(s, res);
    HandOffSpendsAttempt(s, res);
    StayWork(cfg, s, ExecutorNode.HandOff(s, res));
  }

  lemma PauseFalls(cfg: Config, s: HermesState, res: ExecutorNode.RunResult, errText: Text, now: int)
    requires InRange(s)
    ensures Falls(cfg, View(s, Executor), ExecutorNode.Pause(s, res, errText, now))
  {
    PauseStays(s, res, errText, now);
    NodeWriteShape(s, ExecutorNode.Pause(s, res, errText, now));
  }

  lemma ExecutorFalls(cfg: Config, s: HermesState, a: ExecutorNode.RunAnswer, now: int)
    requires ExecutorNode.Handle(cfg, s, a, now).Ok?
    ensures Falls(cfg, View(s, Executor), ExecutorNode.Handle(cfg, s, a, now).value)
  {
    if AlreadyDone(s.plan[s.currentIdx]) {
      PassFalls(cfg, s, Executor, ExecutorNode.Handle(cfg, s, a, now).value);
    } else if a.err.Some? && cfg.failurePause {
      PauseFalls(cfg, s, a.res, a.err.value, now);
    } else if a.err.None? && cfg.strictReview {
      HandOffFalls(cfg, s, a.res);
    } else {
      var text := if a.err.Some? then a.err.value else a.res.text;
      var status := if a.err.Some? then SubFailed else SubDone;
      var reason := if a.err.Some? then "subtask_failed" else "subtask_done";
      FinishPasses(cfg, s, a.res, status, text, reason);
      PassFalls(cfg, s, Executor, ExecutorNode.Finish(cfg, s, a.res, status, text, reason));
    }
  }

  /** A strict retry: the entry stays, with an attempt left. */
  predicate RetryOutput(cfg: Config, s: HermesState, out: NodeOutput)
    requires InRange(s)
  {
    && |out.updates| == 1 && Stays(s, out.updates[0]) && out.updates[0].plan.Some?
    && out.updates[0].plan.value[s.currentIdx].attempts == s.plan[s.currentIdx].attempts < cfg.maxRetriesPerSub
    && out.nextStep == Executor
  }

  lemma RetryFalls(cfg: Config, s: HermesState, out: NodeOutput)
    requires InRange(s) && RetryOutput(cfg, s, out)
    ensures Falls(cfg, View(s, StrictReview), out)
  {
    var v' := View(Effect(s, NodeWrite(s, out)), out.nextStep);
    StayWork(cfg, s, out);
    ReviewWork(cfg, s);
    RetryWeighsLess(cfg, s.plan[s.currentIdx], out.updates[0].plan.value[s.currentIdx]);
    FallsByWork(cfg, View(s, StrictReview), out, v');
  }

  lemma ReviewWork(cfg: Config, s: HermesState)
    requires InRange(s)
    ensures PlanWork(cfg, View(s, StrictReview))
         == ReviewWeight(cfg, s.plan[s.currentIdx]) + Rest(cfg, s.plan, s.currentIdx + 1)
  {
  }

  /** With an attempt left, another run costs less than the review that asked for it. */
  lemma RetryWeighsLess(cfg: Config, was: SubTask, now: SubTask)
    requires now.attempts == was.attempts < cfg.maxRetriesPerSub
    ensures RunWeight(cfg, now) < ReviewWeight(cfg, was)
  {
  }

  lemma StrictReviewRetries(cfg: Config, s: HermesState, a: Option<StrictReviewNode.ReviewResult>)
    requires InRange(s)
    ensures var out := StrictReviewNode.Handle(cfg, s, a).value;
      PassOutput(cfg, s, out) || RetryOutput(cfg, s, out)
  {
    AcceptPasses(cfg, s, a);
    if a.Some? {
      var sub := s.plan[s.currentIdx];
      AdvancePasses(cfg, s, a.value, StrictReviewNode.Skipped(sub, a.value), "strict_review_block_budget_exhausted");
      AdvancePasses(cfg, s, a.value, StrictReviewNode.Failed(sub, a.value), "strict_review_fail");
      if sub.attempts < cfg.maxRetriesPerSub {
        SendBackRetries(cfg, s, a.value);
      }
    }
  }

  lemma SendBackRetries(cfg: Config, s: HermesState, res: StrictReviewNode.ReviewResult)
    requires InRange(s) && s.plan[s.currentIdx].attempts < cfg.maxRetriesPerSub
    ensures RetryOutput(cfg, s, StrictReviewNode.SendBack(s, res))
  {
  }

  lemma StrictReviewFalls(cfg: Config, s: HermesState, a: Option<StrictReviewNode.ReviewResult>)
    requires StrictReviewNode.Handle(cfg, s, a).Ok?
    ensures Falls(cfg, View(s, StrictReview), StrictReviewNode.Handle(cfg, s, a).value)
  {
    StrictReviewRetries(cfg, s, a);
    var out := StrictReviewNode.Handle(cfg, s, a).value;
    if PassOutput(cfg, s, out) {
      PassFalls(cfg, s, StrictReview, out);
    } else {
      RetryFalls(cfg, s, out);
    }
  }

  lemma ApprovalFalls(cfg: Config, s: HermesState)
    requires ApprovalNode.Handle(cfg, s).Ok?
    ensures Falls(cfg, View(s, Approval), ApprovalNode.Handle(cfg, s).value)
  {
  }

  /** Work on one plan: the phase falls, or stays while the work shrinks. */
  lemma PlanPhaseFalls(cfg: Config, c: Coordinator, v: View, t: Tick)
    requires v.step.Executor? || v.step.StrictReview? || v.step.Approval?
    requires Dispatch(cfg, c, v.s, v.step, t).0.Ok?
    ensures Falls(cfg, v, Dispatch(cfg, c, v.s, v.step, t).0.value)
  {
    match v.step
    case Executor => ExecutorFalls(cfg, v.s, t.run, t.now);
    case StrictReview => StrictReviewFalls(cfg, v.s, t.strict);
    case Approval => ApprovalFalls(cfg, v.s);
  }

  /** Between plans: the planner opens a round, a replan uses one up. */
  lemma RoundLowers(cfg: Config, c: Coordinator, s: HermesState, step: RuntimeStep, t: Tick)
    requires (step.Planner? || step.Reviewer? || step.ReplanSetup?) && CanReplan(cfg, c, step)
    requires Dispatch(cfg, c, s, step, t).0.Ok?
    ensures var (r, c') := Dispatch(cfg, c, s, step, t);
      r.value.nextStep != Terminal ==>
        && CanReplan(cfg, c', r.value.nextStep)
        && (|| Rounds(cfg, c', r.value.nextStep) < Rounds(cfg, c, step)
            || (Rounds(cfg, c', r.value.nextStep) == Rounds(cfg, c, step) && Phase(r.value.nextStep) < Phase(step)))
  {
  }

  lemma NoReplanInPlan(cfg: Config, c: Coordinator, v: View, t: Tick)
    requires v.step.Executor? || v.step.StrictReview? || v.step.Approval?
    requires Dispatch(cfg, c, v.s, v.step, t).0.Ok?
    ensures Dispatch(cfg, c, v.s, v.step, t).0.value.nextStep != ReplanSetup
    ensures Dispatch(cfg, c, v.s, v.step, t).1 == c
  {
  }

  /** Every dispatch that neither ends nor halts the run lowers the rank. */
  lemma DispatchLowers(cfg: Config, c: Coordinator, v: View, t: Tick)
    requires Gate(v.s, v.step, t.now).None? && CanReplan(cfg, c, v.step)
    requires Dispatch(cfg, c, v.s, v.step, t).0.Ok?
    ensures var (r, c') := Dispatch(cfg, c, v.s, v.step, t);
      var v' := View(Effect(v.s, NodeWrite(v.s, r.value)), r.value.nextStep);
      r.value.nextStep != Terminal && !r.value.halt ==> Lower(cfg, c', v', c, v) && CanReplan(cfg, c', v'.step)
  {
    if Phase(v.step) == 2 {
      PlanPhaseFalls(cfg, c, v, t);
      NoReplanInPlan(cfg, c, v, t);
    } else {
      RoundLowers(cfg, c, v.s, v.step, t);
    }
  }
}

/**
  How many dispatches a run can take when the planner's plans are capped: at most
  (A + 1) * (N * max(2, 2M) + 2) + A + 1, for A replans, N sub-tasks and M strict
  retries.
 */
module DispatchBound {
  import opened State
  import opened Store
  import opened NodeTypes
  import opened ReplanCoordinator
  import opened PartialRetry
  import opened Runtime
  import opened Events
  import opened Termination
  import opened WalkerLoop
  import PlannerNode
  import PlanMerge
  import ReplanSetupNode
  import ExecutorNode
  import StrictReviewNode

  /** The most one sub-task can cost. */
  function SubTaskCost(cfg: Config): nat {
    Max(2, 2 * cfg.maxRetriesPerSub)
  }

  /** The most one plan can cost. */
  function PlanCost(cfg: Config): nat {
    Max(0, cfg.maxSubTasks) * SubTaskCost(cfg)
  }

  /** From the planner on, with r replans left. */
  function FromPlanner(cfg: Config, r: nat): nat
    decreases r, 1
  {
    PlanCost(cfg) + 2 + AfterReview(cfg, r)
  }

  function AfterReview(cfg: Config, r: nat): nat
    decreases r, 0
  {
    if r > 0 then 1 + FromPlanner(cfg, r - 1) else 0
  }

  lemma {:induction false} FromPlannerClosed(cfg: Config, r: nat)
    ensures FromPlanner(cfg, r) == (r + 1) * (PlanCost(cfg) + 2) + r
  {
    if r == 0 {
    } else {
      FromPlannerClosed(cfg, r - 1);
    }
  }

  /** A bound on the dispatches still to come after this one. */
  function Remaining(cfg: Config, c: Coordinator, v: View): nat {
    match v.step
    case Planner => FromPlanner(cfg, ReplansLeft(cfg, c))
    case Reviewer => 1 + AfterReview(cfg, ReplansLeft(cfg, c))
    case ReplanSetup =>
      if c.Some? then AfterReview(cfg, ReplansLeft(cfg, c)) else 1 + FromPlanner(cfg, ReplansLeft(cfg, c))
    case Executor => PlanWork(cfg, v) + 1 + AfterReview(cfg, ReplansLeft(cfg, c))
    case StrictReview => PlanWork(cfg, v) + 1 + AfterReview(cfg, ReplansLeft(cfg, c))
    case Approval => PlanWork(cfg, v) + 1 + AfterReview(cfg, ReplansLeft(cfg, c))
    case _ => 0
  }

  /** Attempt counters of freshly planned sub-tasks do not start below zero. */
  predicate StartsAtZero(a: PlannerNode.PlanAnswer) {
    a.Planned? ==> forall i :: 0 <= i < |a.tasks| ==> a.tasks[i].attempts >= 0
  }

  /** What a replan carries over is finished work. */
  predicate CarriesDone(s: HermesState) {
    s.replan.Some? ==> forall i :: 0 <= i < |s.replan.value.preserved| ==> AlreadyDone(s.replan.value.preserved[i])
  }

  predicate Cheap(cfg: Config, sub: SubTask) {
    AlreadyDone(sub) || sub.attempts >= 0
  }

  lemma ProductStep(k: nat, w: nat)
    requires k > 0
    ensures (k - 1) * w + w == k * w
  {
  }

  lemma {:induction false} CheapPlan(cfg: Config, plan: seq<SubTask>, from: nat, w: nat)
    requires from <= |plan| && w == SubTaskCost(cfg)
    requires forall j :: from <= j < |plan| ==> Cheap(cfg, plan[j])
    ensures Rest(cfg, plan, from) <= (|plan| - from) * w
    decreases |plan| - from
  {
    if from < |plan| {
      CheapPlan(cfg, plan, from + 1, w);
      assert Cheap(cfg, plan[from]);
      assert RunWeight(cfg, plan[from]) <= w;
      ProductStep(|plan| - from, w);
    }
  }

  lemma {:induction false} RenamedCheap(cfg: Config, seen: set<string>, tasks: seq<SubTask>, attempt: int, n: nat)
    requires n <= |tasks| && forall i :: 0 <= i < |tasks| ==> tasks[i].attempts >= 0
    ensures forall i :: 0 <= i < n ==> Cheap(cfg, PlanMerge.Renamed(seen, tasks, attempt, n)[i])
  {
    if n == 0 {
    } else {
      RenamedCheap(cfg, seen, tasks, attempt, n - 1);
    }
  }

  lemma ProductMonotone(a: nat, b: nat, c: nat)
    requires a <= b
    ensures a * c <= b * c
  {
  }

  /** An adopted plan fits the cost of one plan. */
  lemma PlannerFits(cfg: Config, s: HermesState, a: PlannerNode.PlanAnswer)
    requires cfg.maxSubTasks > 0 && StartsAtZero(a) && CarriesDone(s)
    requires PlannerNode.Handle(cfg, s, a).Ok?
    ensures Rest(cfg, PlannerNode.Adopted(s, a.tasks), 0) <= PlanCost(cfg)
  {
    var plan := PlannerNode.Adopted(s, a.tasks);
    if s.replan.Some? && s.replan.value.preserved != [] {
      var r := s.replan.value;
      RenamedCheap(cfg, PlanMerge.PreservedIDs(r.preserved), a.tasks, r.attemptIdx, |a.tasks|);
    }
    assert forall j :: 0 <= j < |plan| ==> Cheap(cfg, plan[j]);
    CheapPlan(cfg, plan, 0, SubTaskCost(cfg));
    ProductMonotone(|plan|, cfg.maxSubTasks, SubTaskCost(cfg));
  }

  lemma PlannerEffect(cfg: Config, s: HermesState, a: PlannerNode.PlanAnswer)
    requires PlannerNode.Handle(cfg, s, a).Ok?
    ensures var out := PlannerNode.Handle(cfg, s, a).value;
      var s' := Effect(s, NodeWrite(s, out));
      && out.nextStep == Executor && s'.currentIdx == 0 && s'.plan == PlannerNode.Adopted(s, a.tasks)
      && s'.replan.None?
  {
  }

  /** The output ends or halts the run, or leaves fewer dispatches to come. */
  predicate Spends(cfg: Config, c: Coordinator, v: View, out: NodeOutput, c': Coordinator) {
    || out.nextStep == Terminal || out.halt
    || Remaining(cfg, c', View(Effect(v.s, NodeWrite(v.s, out)), out.nextStep)) < Remaining(cfg, c, v)
  }

  lemma PlannerSpends(cfg: Config, c: Coordinator, s: HermesState, a: PlannerNode.PlanAnswer)
    requires cfg.maxSubTasks > 0 && StartsAtZero(a) && CarriesDone(s)
    requires PlannerNode.Handle(cfg, s, a).Ok?
    ensures Spends(cfg, c, View(s, Planner), PlannerNode.Handle(cfg, s, a).value, c)
  {
    PlannerFits(cfg, s, a);
    PlannerEffect(cfg, s, a);
  }

  lemma PlanViewSpends(cfg: Config, c: Coordinator, v: View, v': View)
    requires v.step.Executor? || v.step.StrictReview? || v.step.Approval?
    requires v'.step.Executor? || v'.step.StrictReview? || v'.step.Approval? || v'.step.Reviewer?
    requires PlanWork(cfg, v) > 0 && (Phase(v'.step) == 2 ==> PlanWork(cfg, v') < PlanWork(cfg, v))
    ensures Remaining(cfg, c, v') < Remaining(cfg, c, v)
  {
  }

  /** From the shape of an output alone: less work in the plan, or on to the reviewer. */
  lemma PlanOutputSpends(cfg: Config, c: Coordinator, v: View, out: NodeOutput)
    requires v.step.Executor? || v.step.StrictReview? || v.step.Approval?
    requires Falls(cfg, v, out)
    requires out.nextStep != Terminal && !out.halt ==>
      PlanWork(cfg, v) > 0
      && (out.nextStep.Executor? || out.nextStep.StrictReview? || out.nextStep.Approval? || out.nextStep.Reviewer?)
    ensures Spends(cfg, c, v, out, c)
  {
    if out.nextStep != Terminal && !out.halt {
      PlanViewSpends(cfg, c, v, View(Effect(v.s, NodeWrite(v.s, out)), out.nextStep));
    }
  }

  /** Every dispatch that goes on lowers the bound. */
  lemma DispatchSpends(cfg: Config, c: Coordinator, v: View, t: Tick)
    requires cfg.maxSubTasks > 0 && StartsAtZero(t.plan) && CarriesDone(v.s)
    requires Gate(v.s, v.step, t.now).None? && CanReplan(cfg, c, v.step)
    requires Dispatch(cfg, c, v.s, v.step, t).0.Ok?
    ensures Spends(cfg, c, v, Dispatch(cfg, c, v.s, v.step, t).0.value, Dispatch(cfg, c, v.s, v.step, t).1)
  {
    if v.step == Planner {
      PlannerSpends(cfg, c, v.s, t.plan);
    } else if v.step == Reviewer || v.step == ReplanSetup {
      ReviewSpends(cfg, c, v.s, v.step, t);
    } else {
      PlanPhaseFalls(cfg, c, v, t);
      NoReplanInPlan(cfg, c, v, t);
      WorkIsPositive(cfg, c, v, t);
      PlanOutputSpends(cfg, c, v, Dispatch(cfg, c, v.s, v.step, t).0.value);
    }
  }

  /** A review that goes on leads to the replan setup, with a replan left. */
  lemma ReviewerGoesOn(cfg: Config, c: Coordinator, s: HermesState, t: Tick)
    ensures var (r, c') := Dispatch(cfg, c, s, Reviewer, t);
      r.Ok? && (r.value.nextStep != Terminal ==>
        r.value.nextStep == ReplanSetup && c'.Some? && ReplansLeft(cfg, c') == ReplansLeft(cfg, c))
  {
  }

  /** The replan setup leads to the planner, and uses up a replan when a review is recorded. */
  lemma SetupGoesOn(cfg: Config, c: Coordinator, s: HermesState, t: Tick)
    requires CanReplan(cfg, c, ReplanSetup)
    ensures var (r, c') := Dispatch(cfg, c, s, ReplanSetup, t);
      && r.Ok? && r.value.nextStep == Planner
      && ReplansLeft(cfg, c') == ReplansLeft(cfg, c) - if c.Some? then 1 else 0
  {
  }

  lemma ToSetup(cfg: Config, c: Coordinator, s: HermesState, c': Coordinator, s': HermesState)
    requires c'.Some? && ReplansLeft(cfg, c') == ReplansLeft(cfg, c)
    ensures Remaining(cfg, c', View(s', ReplanSetup)) < Remaining(cfg, c, View(s, Reviewer))
  {
  }

  lemma FromSetup(cfg: Config, c: Coordinator, s: HermesState, c': Coordinator, s': HermesState)
    requires CanReplan(cfg, c, ReplanSetup)
    requires ReplansLeft(cfg, c') == ReplansLeft(cfg, c) - if c.Some? then 1 else 0
    ensures Remaining(cfg, c', View(s', Planner)) < Remaining(cfg, c, View(s, ReplanSetup))
  {
  }

  lemma ReviewSpends(cfg: Config, c: Coordinator, s: HermesState, step: RuntimeStep, t: Tick)
    requires (step.Reviewer? || step.ReplanSetup?) && CanReplan(cfg, c, step)
    ensures var (r, c') := Dispatch(cfg, c, s, step, t);
      r.Ok? && Spends(cfg, c, View(s, step), r.value, c')
  {
    var (r, c') := Dispatch(cfg, c, s, step, t);
    var s' := Effect(s, NodeWrite(s, r.value));
    if step == Reviewer {
      ReviewerGoesOn(cfg, c, s, t);
      if r.value.nextStep != Terminal {
        ToSetup(cfg, c, s, c', s');
      }
    } else {
      SetupGoesOn(cfg, c, s, t);
      FromSetup(cfg, c, s, c', s');
    }
  }

  /** A plan step that goes on had work to do, and goes to a plan step or to the reviewer. */
  lemma WorkIsPositive(cfg: Config, c: Coordinator, v: View, t: Tick)
    requires v.step.Executor? || v.step.StrictReview? || v.step.Approval?
    requires Dispatch(cfg, c, v.s, v.step, t).0.Ok?
    ensures var out := Dispatch(cfg, c, v.s, v.step, t).0.value;
      out.nextStep != Terminal && !out.halt ==>
        PlanWork(cfg, v) > 0
        && (out.nextStep.Executor? || out.nextStep.StrictReview? || out.nextStep.Approval? || out.nextStep.Reviewer?)
  {
  }

  predicate NoReplan(out: NodeOutput) {
    forall i :: 0 <= i < |out.updates| ==> out.updates[i].replan.None? && !out.updates[i].clearReplan
  }

  lemma ExecutorNoReplan(cfg: Config, s: HermesState, a: ExecutorNode.RunAnswer, now: int)
    requires ExecutorNode.Handle(cfg, s, a, now).Ok?
    ensures NoReplan(ExecutorNode.Handle(cfg, s, a, now).value)
  {
  }

  lemma StrictReviewNoReplan(cfg: Config, s: HermesState, a: Option<StrictReviewNode.ReviewResult>)
    requires StrictReviewNode.Handle(cfg, s, a).Ok?
    ensures NoReplan(StrictReviewNode.Handle(cfg, s, a).value)
  {
  }

  /** Only the replan setup writes the replan context. */
  lemma NoReplanWrite(cfg: Config, c: Coordinator, v: View, t: Tick)
    requires v.step.Executor? || v.step.StrictReview? || v.step.Approval? || v.step.Reviewer?
    requires Dispatch(cfg, c, v.s, v.step, t).0.Ok?
    ensures NoReplan(Dispatch(cfg, c, v.s, v.step, t).0.value)
  {
    match v.step
    case Executor => ExecutorNoReplan(cfg, v.s, t.run, t.now);
    case StrictReview => StrictReviewNoReplan(cfg, v.s, t.strict);
    case _ =>
  }

  lemma NoReplanKeeps(s: HermesState, out: NodeOutput)
    requires NoReplan(out)
    ensures Effect(s, NodeWrite(s, out)).replan == s.replan
  {
  }

  lemma ReplanWrite(c: Coordinator, cfg: Config, s: HermesState, goal: string)
    ensures var w := NodeWrite(s, ReplanSetupNode.Handle(DecideReplan(cfg, c, goal).0));
      w.replan.Some? ==> forall i :: 0 <= i < |w.replan.value.preserved| ==> AlreadyDone(w.replan.value.preserved[i])
  {
    if c.Some? {
      var partial := Split(cfg, c.value.lastReview, c.value.lastPlan);
      assert forall i :: 0 <= i < |partial.preserved| ==> AlreadyDone(partial.preserved[i]);
    }
  }

  /** Only finished sub-tasks are carried over. */
  lemma DispatchCarriesDone(cfg: Config, c: Coordinator, v: View, t: Tick)
    requires CarriesDone(v.s) && Registered(v.step) && Dispatch(cfg, c, v.s, v.step, t).0.Ok?
    ensures CarriesDone(Effect(v.s, NodeWrite(v.s, Dispatch(cfg, c, v.s, v.step, t).0.value)))
  {
    if v.step == Planner {
      PlannerEffect(cfg, v.s, t.plan);
    } else if v.step == ReplanSetup {
      ReplanWrite(c, cfg, v.s, t.replanGoal);
    } else {
      NoReplanWrite(cfg, c, v, t);
      NoReplanKeeps(v.s, Dispatch(cfg, c, v.s, v.step, t).0.value);
    }
  }

  /** The hypotheses of the bound, which every turn keeps. */
  predicate Ready(cfg: Config, log: TaskLog, c: Coordinator) {
    && log.history != [] && log.InSync()
    && CarriesDone(log.Last().state) && CanReplan(cfg, c, log.Last().nextStep)
  }

  function RemainingOf(cfg: Config, log: TaskLog, c: Coordinator): nat {
    if log.history == [] then 0 else Remaining(cfg, c, ViewOf(log))
  }

  /** A loop whose turns lower a bound stops within it. */
  lemma {:induction false} BoundedRunStops(turner: Turner, taskID: string, p: Position, env: nat -> Tick, n: nat,
                                           ready: (TaskLog, Coordinator) -> bool, bound: (TaskLog, Coordinator) -> nat)
    requires forall log, c, i: nat :: ready(log, c) ==>
      var turn := turner(log, c, env(i));
      turn.stop || (ready(turn.log, turn.coord) && bound(turn.log, turn.coord) < bound(log, c))
    requires ready(p.log, p.coord) && n > bound(p.log, p.coord)
    ensures RunFor(turner, taskID, p, env, n).1.Stopped?
    decreases n
  {
    var turn := turner(p.log, p.coord, env(p.turns));
    if env(p.turns).ctxErr.None? && !turn.stop {
      BoundedRunStops(turner, taskID, Position(turn.log, turn.coord, true, p.turns + 1), env, n - 1, ready, bound);
    }
  }

  /** With more turns than the bound, a run that keeps the hypotheses never runs out of them. */
  lemma RunStops(cfg: Config, taskID: string, p: Position, env: nat -> Tick, n: nat)
    requires cfg.maxSubTasks > 0 && forall i: nat :: StartsAtZero(env(i).plan)
    requires Ready(cfg, p.log, p.coord) && n > RemainingOf(cfg, p.log, p.coord)
    ensures RunFor(TurnsOf(cfg, taskID), taskID, p, env, n).1.Stopped?
  {
    var turner := TurnsOf(cfg, taskID);
    forall log, c, i: nat | Ready(cfg, log, c)
      ensures var turn := turner(log, c, env(i));
        || turn.stop
        || (Ready(cfg, turn.log, turn.coord)
            && RemainingOf(cfg, turn.log, turn.coord) < RemainingOf(cfg, log, c))
    {
      if !turner(log, c, env(i)).stop {
        TurnSpends(cfg, taskID, log, c, env(i), turner(log, c, env(i)));
      }
    }
    BoundedRunStops(turner, taskID, p, env, n,
                    (log: TaskLog, c: Coordinator) => Ready(cfg, log, c),
                    (log: TaskLog, c: Coordinator) => RemainingOf(cfg, log, c));
  }

  lemma TurnSpends(cfg: Config, taskID: string, log: TaskLog, c: Coordinator, t: Tick, turn: Turn)
    requires cfg.maxSubTasks > 0 && StartsAtZero(t.plan) && Ready(cfg, log, c)
    requires turn == TurnsOf(cfg, taskID)(log, c, t) && !turn.stop
    ensures Ready(cfg, turn.log, turn.coord)
    ensures RemainingOf(cfg, turn.log, turn.coord) < RemainingOf(cfg, log, c)
  {
    TurnGoesOn(cfg, taskID, log, c, t, turn);
    var v := ViewOf(log);
    DispatchLowers(cfg, c, v, t);
    DispatchSpends(cfg, c, v, t);
    DispatchCarriesDone(cfg, c, v, t);
    var out := Dispatch(cfg, c, v.s, v.step, t).0.value;
    assert ViewOf(turn.log) == View(Effect(v.s, NodeWrite(v.s, out)), out.nextStep);
  }

  /** The bound for a whole task, from its seed. */
  function TaskBound(cfg: Config): nat {
    var a := Max(0, MaxAttempts(cfg));
    (a + 1) * (PlanCost(cfg) + 2) + a + 1
  }

  lemma SeedIsReady(cfg: Config, task: TaskState, walking: Option<Walking>)
    requires task.ident.taskID != ""
    ensures Ready(cfg, Seeded(task, walking), None)
    ensures RemainingOf(cfg, Seeded(task, walking), None) < TaskBound(cfg)
  {
    SeedIsSound(task, walking);
    FromPlannerClosed(cfg, Max(0, MaxAttempts(cfg)));
  }

  /**
    A seeded task's run stops within TaskBound turns, whatever the planner, the
    runner, the reviewers, the clock and the caller do.
   */
  lemma SeededRunStops(cfg: Config, task: TaskState, walking: Option<Walking>, env: nat -> Tick)
    requires cfg.maxSubTasks > 0 && forall i: nat :: StartsAtZero(env(i).plan)
    requires task.ident.taskID != ""
    ensures RunFor(TurnsOf(cfg, task.ident.taskID), task.ident.taskID,
                   Position(Seeded(task, walking), None, false, 0), env, TaskBound(cfg)).1.Stopped?
  {
    SeedIsReady(cfg, task, walking);
    RunStops(cfg, task.ident.taskID, Position(Seeded(task, walking), None, false, 0), env, TaskBound(cfg));
  }

  /** The turns that Walker.Run reports for a seeded task are within the bound, with or without a step cap. */
  lemma ReportedTurnsBounded(cfg: Config, task: TaskState, walking: Option<Walking>, env: nat -> Tick, maxSteps: nat,
                             log: TaskLog, err: Option<RunError>, turns: nat)
    requires cfg.maxSubTasks > 0 && forall i: nat :: StartsAtZero(env(i).plan)
    requires task.ident.taskID != ""
    requires Reports(TurnsOf(cfg, task.ident.taskID), task.ident.taskID,
                     Position(Seeded(task, walking), None, false, 0), env, maxSteps, log, err, turns)
    ensures turns <= TaskBound(cfg)
  {
    SeededRunStops(cfg, task, walking, env);
  }
}

/**
  Plan progress: on every reachable state the pointer stays in range and everything
  before it is resolved. As long as operator resolutions do not push the pointer past
  the end, the nodes' range guards never fire either.
 */
module PlanProgress {
  import opened State
  import opened NodeTypes
  import opened ReplanCoordinator
  import opened Runtime
  import opened Events
  import ExecutorNode
  import StrictReviewNode
  import ApprovalNode
  import PlannerNode
  import ReviewerNode
  import ReplanSetupNode

  /** What a step expects of the pointer. */
  predicate StepFits(step: RuntimeStep, s: HermesState) {
    match step
    case Planner => true
    case Terminal => true
    case Executor => s.currentIdx < |s.plan|
    case Approval => s.currentIdx < |s.plan|
    case StrictReview => s.currentIdx < |s.plan| && 0 <= s.currentIdx && !AlreadyDone(s.plan[s.currentIdx])
    case Reviewer => s.currentIdx == |s.plan|
    case ReplanSetup => s.currentIdx == |s.plan|
    case _ => false
  }

  /** A pause points at the sub-task it paused, and a budget pause resumes where it can. */
  predicate InterruptFits(s: HermesState) {
    s.interrupt.Some? ==>
      && (s.interrupt.value.subTaskIdx.Some? ==>
            && s.interrupt.value.subTaskIdx.value == s.currentIdx
            && 0 <= s.currentIdx < |s.plan|
            && !AlreadyDone(s.plan[s.currentIdx]))
      && (s.interrupt.value.reason == "budget_exceeded" ==> StepFits(s.interrupt.value.resumeStep, s))
  }

  predicate PrefixResolved(s: HermesState) {
    && 0 <= s.currentIdx <= |s.plan|
    && forall j :: 0 <= j < s.currentIdx ==> s.plan[j].status.IsResolved()
  }

  predicate OnTrack(v: View) {
    PrefixResolved(v.s) && StepFits(v.step, v.s) && InterruptFits(v.s)
  }

  /** The resolutions that keep the pointer in the plan; a caller can check it before the call. */
  predicate Allowed(s: HermesState, d: Choice) {
    s.interrupt.Some? ==>
      match d
      case Abort => true
      case Skip => s.interrupt.value.subTaskIdx.Some? ==> s.interrupt.value.subTaskIdx.value + 1 < |s.plan|
      case Retry => s.interrupt.value.reason == "budget_exceeded" || s.currentIdx < |s.plan|
  }

  predicate AllowedEvent(s: HermesState, e: Event) {
    e.Resolving? ==> Allowed(s, e.decision)
  }

  /**
    Between two states of one plan: only the entry at the pointer may differ, and the pointer
    moves on by at most one.
   */
  predicate OneEntry(s: HermesState, s': HermesState) {
    && |s'.plan| == |s.plan|
    && (forall j :: 0 <= j < |s.plan| && j != s.currentIdx ==> s'.plan[j] == s.plan[j])
    && s.currentIdx <= s'.currentIdx <= s.currentIdx + 1
  }

  // ---------- The four shapes a write takes ----------

  /** The write replaces the entry at the pointer, if anything. */
  predicate OneEntryWrite(s: HermesState, w: StateUpdate)
    requires InRange(s)
  {
    w.plan.Some? ==>
      |w.plan.value| == |s.plan| && w.plan.value == s.plan[s.currentIdx := w.plan.value[s.currentIdx]]
  }

  /** Move past the entry at the pointer, which the write leaves resolved. */
  predicate Passes(s: HermesState, w: StateUpdate)
    requires InRange(s)
  {
    && OneEntryWrite(s, w)
    && w.currentIdx == Some(s.currentIdx + 1)
    && (if w.plan.Some? then w.plan.value[s.currentIdx].status.IsResolved() else AlreadyDone(s.plan[s.currentIdx]))
  }

  /** Stay at the entry and keep its status. */
  predicate Stays(s: HermesState, w: StateUpdate)
    requires InRange(s)
  {
    && OneEntryWrite(s, w)
    && w.currentIdx.None?
    && (w.plan.Some? ==> w.plan.value[s.currentIdx].status == s.plan[s.currentIdx].status)
  }

  predicate KeepsInterrupt(w: StateUpdate) {
    w.interrupt.None? && !w.clearInterrupt
  }

  /** Neither plan nor pointer nor interrupt. */
  predicate Routes(w: StateUpdate) {
    w.plan.None? && w.currentIdx.None? && KeepsInterrupt(w)
  }

  lemma PassKeeps(cfg: Config, s: HermesState, w: StateUpdate)
    requires PrefixResolved(s) && InRange(s) && Passes(s, w)
    requires w.interrupt.None? && (s.interrupt.None? || w.clearInterrupt)
    ensures var s' := Effect(s, w);
      OnTrack(View(s', StepAfter(cfg, s.currentIdx + 1, |s.plan|))) && OneEntry(s, s')
  {
    var s' := Effect(s, w);
    assert s'.currentIdx == s.currentIdx + 1 && s'.interrupt == None;
    assert forall j :: 0 <= j < |s.plan| && j != s.currentIdx ==> s'.plan[j] == s.plan[j];
  }

  lemma StayKeeps(s: HermesState, w: StateUpdate, next: RuntimeStep)
    requires PrefixResolved(s) && InRange(s) && Stays(s, w)
    requires !AlreadyDone(s.plan[s.currentIdx]) && (next.Executor? || next.StrictReview? || next.Approval?)
    requires s.interrupt.None? && !w.clearInterrupt
    requires w.interrupt.Some? ==>
      w.interrupt.value.subTaskIdx == Some(s.currentIdx) && w.interrupt.value.reason == "subtask_failure_pause"
    ensures var s' := Effect(s, w);
      OnTrack(View(s', next)) && OneEntry(s, s')
  {
    var s' := Effect(s, w);
    assert s'.currentIdx == s.currentIdx && s'.interrupt == w.interrupt;
    assert forall j :: 0 <= j < |s.plan| && j != s.currentIdx ==> s'.plan[j] == s.plan[j];
  }

  lemma RouteKeeps(s: HermesState, w: StateUpdate, step: RuntimeStep, next: RuntimeStep)
    requires OnTrack(View(s, step)) && Routes(w)
    requires StepFits(step, s) ==> StepFits(next, s)
    ensures var s' := Effect(s, w);
      OnTrack(View(s', next)) && OneEntry(s, s')
  {
  }

  // ---------- Each event has one of the shapes ----------

  /** The walker's own status write leaves the shape alone. */
  lemma NodeWriteShape(s: HermesState, out: NodeOutput)
    requires |out.updates| == 1
    ensures NodeWrite(s, out) == out.updates[0].(status := NodeWrite(s, out).status)
  {
  }

  predicate PassOutput(cfg: Config, s: HermesState, out: NodeOutput)
    requires InRange(s)
  {
    && |out.updates| == 1 && Passes(s, out.updates[0]) && KeepsInterrupt(out.updates[0])
    && out.nextStep == StepAfter(cfg, s.currentIdx + 1, |s.plan|)
  }

  lemma PassOutputKeeps(cfg: Config, s: HermesState, out: NodeOutput)
    requires PrefixResolved(s) && InRange(s) && s.interrupt.None? && PassOutput(cfg, s, out)
    ensures var s' := Effect(s, NodeWrite(s, out));
      OnTrack(View(s', out.nextStep)) && OneEntry(s, s')
  {
    NodeWriteShape(s, out);
    PassKeeps(cfg, s, NodeWrite(s, out));
  }

  lemma FinishPasses(cfg: Config, s: HermesState, res: ExecutorNode.RunResult, status: SubTaskStatus, text: Text,
                     reason: string)
    requires InRange(s) && status.IsResolved()
    ensures PassOutput(cfg, s, ExecutorNode.Finish(cfg, s, res, status, text, reason))
  {
  }

  lemma PauseStays(s: HermesState, res: ExecutorNode.RunResult, errText: Text, now: int)
    requires InRange(s)
    ensures var out := ExecutorNode.Pause(s, res, errText, now);
      && |out.updates| == 1 && Stays(s, out.updates[0]) && !out.updates[0].clearInterrupt
      && out.updates[0].interrupt == Some(ExecutorNode.PauseInterrupt(s.currentIdx, now)) && out.nextStep == Approval
  {
  }

  lemma HandOffStays(s: HermesState, res: ExecutorNode.RunResult)
    requires InRange(s)
    ensures var out := ExecutorNode.HandOff(s, res);
      && |out.updates| == 1 && Stays(s, out.updates[0]) && KeepsInterrupt(out.updates[0])
      && out.nextStep == StrictReview
  {
  }

  lemma ExecutorKeeps(cfg: Config, s: HermesState, a: ExecutorNode.RunAnswer, now: int)
    requires OnTrack(View(s, Executor)) && s.interrupt.None?
    ensures ExecutorNode.Handle(cfg, s, a, now).Ok?
    ensures var out := ExecutorNode.Handle(cfg, s, a, now).value;
      var s' := Effect(s, NodeWrite(s, out));
      OnTrack(View(s', out.nextStep)) && OneEntry(s, s')
  {
    var out := ExecutorNode.Handle(cfg, s, a, now).value;
    if AlreadyDone(s.plan[s.currentIdx]) {
      PassOutputKeeps(cfg, s, out);
    } else if a.err.Some? && cfg.failurePause {
      PauseStays(s, a.res, a.err.value, now);
      NodeWriteShape(s, out);
      StayKeeps(s, NodeWrite(s, out), Approval);
    } else if a.err.None? && cfg.strictReview {
      HandOffStays(s, a.res);
      NodeWriteShape(s, out);
      StayKeeps(s, NodeWrite(s, out), StrictReview);
    } else if a.err.Some? {
      FinishPasses(cfg, s, a.res, SubFailed, a.err.value, "subtask_failed");
      PassOutputKeeps(cfg, s, out);
    } else {
      FinishPasses(cfg, s, a.res, SubDone, a.res.text, "subtask_done");
      PassOutputKeeps(cfg, s, out);
    }
  }

  lemma StrictReviewShape(cfg: Config, s: HermesState, a: Option<StrictReviewNode.ReviewResult>)
    requires InRange(s)
    ensures StrictReviewNode.Handle(cfg, s, a).Ok?
    ensures var out := StrictReviewNode.Handle(cfg, s, a).value;
      || PassOutput(cfg, s, out)
      || (|out.updates| == 1 && Stays(s, out.updates[0]) && KeepsInterrupt(out.updates[0]) && out.nextStep == Executor)
  {
    AcceptPasses(cfg, s, a);
    if a.Some? {
      var sub := s.plan[s.currentIdx];
      SendBackStays(s, a.value);
      AdvancePasses(cfg, s, a.value, StrictReviewNode.Skipped(sub, a.value), "strict_review_block_budget_exhausted");
      AdvancePasses(cfg, s, a.value, StrictReviewNode.Failed(sub, a.value), "strict_review_fail");
    }
  }

  lemma AcceptPasses(cfg: Config, s: HermesState, a: Option<StrictReviewNode.ReviewResult>)
    requires InRange(s)
    ensures PassOutput(cfg, s, StrictReviewNode.Pass(cfg, s, a))
  {
  }

  lemma AdvancePasses(cfg: Config, s: HermesState, res: StrictReviewNode.ReviewResult, final: SubTask, reason: string)
    requires InRange(s) && final.status.IsResolved()
    ensures PassOutput(cfg, s, StrictReviewNode.Advance(cfg, s, res, final, reason))
  {
  }

  lemma SendBackStays(s: HermesState, res: StrictReviewNode.ReviewResult)
    requires InRange(s)
    ensures var out := StrictReviewNode.SendBack(s, res);
      |out.updates| == 1 && Stays(s, out.updates[0]) && KeepsInterrupt(out.updates[0]) && out.nextStep == Executor
  {
  }

  lemma StrictReviewKeeps(cfg: Config, s: HermesState, a: Option<StrictReviewNode.ReviewResult>)
    requires OnTrack(View(s, StrictReview)) && s.interrupt.None?
    ensures StrictReviewNode.Handle(cfg, s, a).Ok?
    ensures var out := StrictReviewNode.Handle(cfg, s, a).value;
      var s' := Effect(s, NodeWrite(s, out));
      OnTrack(View(s', out.nextStep)) && OneEntry(s, s')
  {
    StrictReviewShape(cfg, s, a);
    var out := StrictReviewNode.Handle(cfg, s, a).value;
    if PassOutput(cfg, s, out) {
      PassOutputKeeps(cfg, s, out);
    } else {
      NodeWriteShape(s, out);
      StayKeeps(s, NodeWrite(s, out), Executor);
    }
  }

  lemma PlannerKeeps(cfg: Config, s: HermesState, a: PlannerNode.PlanAnswer)
    requires OnTrack(View(s, Planner)) && s.interrupt.None?
    ensures var r := PlannerNode.Handle(cfg, s, a);
      r.Ok? ==> OnTrack(View(Effect(s, NodeWrite(s, r.value)), r.value.nextStep))
  {
  }

  lemma ReviewerKeeps(s: HermesState, a: Option<ReviewerNode.TaskReviewResult>)
    requires OnTrack(View(s, Reviewer)) && s.interrupt.None?
    ensures var out := ReviewerNode.Handle(a);
      var s' := Effect(s, NodeWrite(s, out));
      OnTrack(View(s', out.nextStep)) && OneEntry(s, s')
  {
    var out := ReviewerNode.Handle(a);
    RouteKeeps(s, NodeWrite(s, out), Reviewer, out.nextStep);
  }

  lemma ReplanSetupKeeps(s: HermesState, d: ReplanCoordinator.Decision)
    requires OnTrack(View(s, ReplanSetup)) && s.interrupt.None?
    ensures var out := ReplanSetupNode.Handle(d);
      var s' := Effect(s, NodeWrite(s, out));
      OnTrack(View(s', out.nextStep)) && OneEntry(s, s')
  {
    var out := ReplanSetupNode.Handle(d);
    RouteKeeps(s, NodeWrite(s, out), ReplanSetup, out.nextStep);
  }

  lemma ApprovalKeeps(cfg: Config, s: HermesState)
    requires OnTrack(View(s, Approval))
    ensures ApprovalNode.Handle(cfg, s).Ok?
    ensures var out := ApprovalNode.Handle(cfg, s).value;
      var s' := Effect(s, NodeWrite(s, out));
      OnTrack(View(s', out.nextStep)) && OneEntry(s, s')
  {
    var out := ApprovalNode.Handle(cfg, s).value;
    RouteKeeps(s, NodeWrite(s, out), Approval, out.nextStep);
  }

  /** A dispatched node keeps the plan on track and never meets its range guard. */
  lemma DispatchKeeps(cfg: Config, c: Coordinator, v: View, t: Tick)
    requires OnTrack(v) && Gate(v.s, v.step, t.now).None?
    ensures var r := Dispatch(cfg, c, v.s, v.step, t).0;
      && (r.Err? ==> v.step == Planner && !r.error.EmptyPlan? && !r.error.IndexOutOfRange?)
      && (r.Ok? ==>
            var s' := Effect(v.s, NodeWrite(v.s, r.value));
            OnTrack(View(s', r.value.nextStep)) && (v.step != Planner ==> OneEntry(v.s, s')))
  {
    match v.step
    case Executor => ExecutorKeeps(cfg, v.s, t.run, t.now);
    case StrictReview => StrictReviewKeeps(cfg, v.s, t.strict);
    case Planner => PlannerKeeps(cfg, v.s, t.plan);
    case Reviewer => ReviewerKeeps(v.s, ReviewTask(cfg, c, v.s, t.review).0);
    case ReplanSetup => ReplanSetupKeeps(v.s, DecideReplan(cfg, c, t.replanGoal).0);
    case Approval => ApprovalKeeps(cfg, v.s);
  }

  lemma ResolutionKeeps(s: HermesState, step: RuntimeStep, d: Choice, now: int)
    requires OnTrack(View(s, step)) && Allowed(s, d) && Resolution(s, d, now).Ok?
    ensures var commit := Resolution(s, d, now).value;
      var s' := Effect(s, Write(commit));
      OnTrack(View(s', commit.nextStep)) && OneEntry(s, s')
  {
  }

  /** An allowed event keeps the plan on track; outside planner turns it touches one entry. */
  lemma AllowedEventKeeps(cfg: Config, c: Coordinator, v: View, e: Event)
    requires OnTrack(v) && AllowedEvent(v.s, e)
    ensures var v' := After(cfg, c, v, e);
      OnTrack(v') && (!(e.Turning? && v.step == Planner) ==> OneEntry(v.s, v'.s))
  {
    CauseExplains(cfg, c, v, e);
    CauseFacts(cfg, c, v, e);
    var cause := CauseOf(cfg, c, v, e);
    match cause
    case Dispatched(out) => DispatchKeeps(cfg, c, v, e.tick);
    case Resolved(_) => ResolutionKeeps(v.s, v.step, e.decision, e.now);
    case Ending(w) => EndingKeeps(v, w);
    case Interrupting(i) =>
      InterruptingFacts(cfg, c, v, e);
      InterruptKeeps(v, i);
    case Nothing =>
  }

  lemma EndingKeeps(v: View, w: StateUpdate)
    requires OnTrack(v) && EndingWrite(w)
    ensures OnTrack(View(Effect(v.s, w), Terminal)) && OneEntry(v.s, Effect(v.s, w)) && OneEntry(v.s, v.s)
  {
    RouteKeeps(v.s, w, v.step, Terminal);
  }

  lemma InterruptKeeps(v: View, i: Interrupt)
    requires OnTrack(v) && i.resumeStep == v.step && i.subTaskIdx.None?
    ensures var s' := Effect(v.s, NO_UPDATE.(interrupt := Some(i)));
      OnTrack(View(s', v.step)) && OneEntry(v.s, s')
  {
  }

  // ---------- What every event keeps ----------

  /** The entry at the pointer is there and still open. */
  predicate AtOpenEntry(s: HermesState) {
    InRange(s) && !AlreadyDone(s.plan[s.currentIdx])
  }

  /**
    The pointer is in the plan or at its end, all before it is resolved, and who waits for an
    entry waits for an open one.
   */
  predicate Settled(v: View) {
    && PrefixResolved(v.s)
    && (v.step == StrictReview ==> AtOpenEntry(v.s))
    && (v.s.interrupt.Some? ==>
          && (v.s.interrupt.value.subTaskIdx.Some? ==>
                v.s.interrupt.value.subTaskIdx.value == v.s.currentIdx && AtOpenEntry(v.s))
          && (v.s.interrupt.value.reason == "budget_exceeded" && v.s.interrupt.value.resumeStep == StrictReview ==>
                AtOpenEntry(v.s)))
  }

  /** A write that leaves plan, pointer and interrupt alone, on the way to any step but the strict reviewer. */
  lemma RouteSettles(s: HermesState, w: StateUpdate, step: RuntimeStep, next: RuntimeStep)
    requires Settled(View(s, step)) && Routes(w) && (next != StrictReview || next == step)
    ensures Settled(View(Effect(s, w), next)) && OneEntry(s, Effect(s, w))
  {
  }

  lemma RouterSettles(cfg: Config, c: Coordinator, v: View, t: Tick)
    requires Settled(v) && (v.step.Reviewer? || v.step.ReplanSetup? || v.step.Approval?)
    requires Dispatch(cfg, c, v.s, v.step, t).0.Ok?
    ensures var out := Dispatch(cfg, c, v.s, v.step, t).0.value;
      Routes(NodeWrite(v.s, out)) && out.nextStep != StrictReview
  {
    match v.step
    case Reviewer => ReviewerRoutes(v.s, ReviewTask(cfg, c, v.s, t.review).0);
    case ReplanSetup => SetupRoutes(v.s, DecideReplan(cfg, c, t.replanGoal).0);
    case Approval => ApprovalRoutes(cfg, v.s);
  }

  lemma ReviewerRoutes(s: HermesState, a: Option<ReviewerNode.TaskReviewResult>)
    ensures var out := ReviewerNode.Handle(a);
      Routes(NodeWrite(s, out)) && out.nextStep != StrictReview
  {
  }

  lemma SetupRoutes(s: HermesState, d: ReplanCoordinator.Decision)
    ensures var out := ReplanSetupNode.Handle(d);
      Routes(NodeWrite(s, out)) && out.nextStep != StrictReview
  {
  }

  lemma ApprovalRoutes(cfg: Config, s: HermesState)
    requires ApprovalNode.Handle(cfg, s).Ok?
    ensures var out := ApprovalNode.Handle(cfg, s).value;
      Routes(NodeWrite(s, out)) && out.nextStep != StrictReview
  {
  }

  lemma DispatchSettles(cfg: Config, c: Coordinator, v: View, t: Tick)
    requires Settled(v) && Gate(v.s, v.step, t.now).None? && Dispatch(cfg, c, v.s, v.step, t).0.Ok?
    ensures var out := Dispatch(cfg, c, v.s, v.step, t).0.value;
      var s' := Effect(v.s, NodeWrite(v.s, out));
      Settled(View(s', out.nextStep)) && (v.step != Planner ==> OneEntry(v.s, s'))
  {
    var out := Dispatch(cfg, c, v.s, v.step, t).0.value;
    if v.step.Executor? || v.step.StrictReview? || v.step.Planner? {
      assert OnTrack(v);
      DispatchKeeps(cfg, c, v, t);
    } else {
      RouterSettles(cfg, c, v, t);
      RouteSettles(v.s, NodeWrite(v.s, out), v.step, out.nextStep);
    }
  }

  lemma ResolutionSettles(s: HermesState, step: RuntimeStep, d: Choice, now: int)
    requires Settled(View(s, step)) && Resolution(s, d, now).Ok?
    ensures var commit := Resolution(s, d, now).value;
      var s' := Effect(s, Write(commit));
      Settled(View(s', commit.nextStep)) && OneEntry(s, s')
  {
    match d
    case Abort => AbortSettles(s, step);
    case Skip => SkipSettles(s, step, now);
    case Retry => RetrySettles(s, step, now);
  }

  lemma AbortSettles(s: HermesState, step: RuntimeStep)
    requires Settled(View(s, step))
    ensures var commit := FailCommit("user_abort_after_pause");
      var s' := Effect(s, Write(commit));
      Settled(View(s', commit.nextStep)) && OneEntry(s, s')
  {
  }

  lemma SkipSettles(s: HermesState, step: RuntimeStep, now: int)
    requires Settled(View(s, step)) && Resolution(s, Skip, now).Ok?
    ensures var commit := Resolution(s, Skip, now).value;
      var s' := Effect(s, Write(commit));
      Settled(View(s', commit.nextStep)) && OneEntry(s, s')
  {
  }

  lemma RetrySettles(s: HermesState, step: RuntimeStep, now: int)
    requires Settled(View(s, step)) && Resolution(s, Retry, now).Ok?
    ensures var commit := Resolution(s, Retry, now).value;
      var s' := Effect(s, Write(commit));
      Settled(View(s', commit.nextStep)) && OneEntry(s, s')
  {
  }

  /**
    One event, whatever it is, keeps this; outside planner turns it touches one entry and
    moves the pointer by at most one.
   */
  lemma EventKeeps(cfg: Config, c: Coordinator, v: View, e: Event)
    requires Settled(v)
    ensures var v' := After(cfg, c, v, e);
      Settled(v') && (!(e.Turning? && v.step == Planner) ==> OneEntry(v.s, v'.s))
  {
    CauseExplains(cfg, c, v, e);
    CauseFacts(cfg, c, v, e);
    match CauseOf(cfg, c, v, e)
    case Dispatched(out) => DispatchSettles(cfg, c, v, e.tick);
    case Resolved(_) => ResolutionSettles(v.s, v.step, e.decision, e.now);
    case Ending(w) => RouteSettles(v.s, w, v.step, Terminal);
    case Interrupting(i) => InterruptingFacts(cfg, c, v, e);
    case Nothing =>
  }

  // ---------- Whole runs ----------

  /**
    In every reachable state the pointer is in the plan or at its end, and everything before
    it is done, skipped or failed.
   */
  lemma {:induction false} RunsStaySettled(cfg: Config, l: Live, es: seq<Event>)
    requires Settled(l.v)
    ensures Settled(Run(cfg, l, es).v)
    decreases |es|
  {
    if es == [] {
    } else {
      var before := Run(cfg, l, es[..|es| - 1]);
      RunsStaySettled(cfg, l, es[..|es| - 1]);
      EventKeeps(cfg, before.coord, before.v, es[|es| - 1]);
    }
  }

  predicate AllAllowed(cfg: Config, l: Live, es: seq<Event>)
    decreases |es|
  {
    es == []
    || (AllAllowed(cfg, l, es[..|es| - 1]) && AllowedEvent(Run(cfg, l, es[..|es| - 1]).v.s, es[|es| - 1]))
  }

  /** In runs with allowed resolutions only, every step finds the pointer where it needs it. */
  lemma {:induction false} RunsStayOnTrack(cfg: Config, l: Live, es: seq<Event>)
    requires OnTrack(l.v) && AllAllowed(cfg, l, es)
    ensures OnTrack(Run(cfg, l, es).v)
    decreases |es|
  {
    if es == [] {
    } else {
      var before := Run(cfg, l, es[..|es| - 1]);
      RunsStayOnTrack(cfg, l, es[..|es| - 1]);
      AllowedEventKeeps(cfg, before.coord, before.v, es[|es| - 1]);
    }
  }

  /** A freshly created and seeded task is on track. */
  lemma SeedOnTrack(task: TaskState, walking: Option<Walking>)
    requires task.plan == [] && task.currentIdx == 0 && task.interruptedBy.None?
    ensures var seed := SeedSnapshot(task, walking);
      OnTrack(View(seed.state, seed.nextStep)) && Settled(View(seed.state, seed.nextStep))
  {
  }

  predicate RangeGuardFires(a: Action) {
    && a.Leave? && a.err.Some? && a.err.value.NodeFailed?
    && (a.err.value.failure.EmptyPlan? || a.err.value.failure.IndexOutOfRange?)
  }

  /** On track, no turn ends in a range error. */
  lemma GuardsNeverFire(cfg: Config, c: Coordinator, v: View, t: Tick)
    requires OnTrack(v)
    ensures !RangeGuardFires(Decide(cfg, c, v.s, v.step, t))
  {
    if Gate(v.s, v.step, t.now).None? {
      DispatchKeeps(cfg, c, v, t);
    }
  }

  /**
    A resolution leads the next dispatch into the executor's range error exactly
    when it is not an allowed one: a retry of a cancellation with the plan used up,
    or a skip of the last sub-task.
   */
  lemma GuardFiresExactly(cfg: Config, c: Coordinator, v: View, d: Choice, now: int, t: Tick)
    requires OnTrack(v) && Resolution(v.s, d, now).Ok?
    requires var v' := After(cfg, c, v, Resolving(d, now));
      t.panic.None? && !v'.s.budget.Exceeded(t.now)
    ensures var v' := After(cfg, c, v, Resolving(d, now));
      RangeGuardFires(Decide(cfg, c, v'.s, v'.step, t)) <==> !Allowed(v.s, d)
  {
    var v' := After(cfg, c, v, Resolving(d, now));
    if Allowed(v.s, d) {
      AllowedEventKeeps(cfg, c, v, Resolving(d, now));
      GuardsNeverFire(cfg, c, v', t);
    } else {
      ResolvingExplains(cfg, c, v, d, now);
      assert v'.step == Executor && v'.s.interrupt.None? && !InRange(v'.s);
      assert Gate(v'.s, v'.step, t.now).None?;
      assert Dispatch(cfg, c, v'.s, Executor, t).0 == Err(RangeError(v'.s));
    }
  }
}

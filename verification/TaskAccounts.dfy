/** Which parts of a task's state an event can change, and which no run ever changes. */
module RunFrames {
  import opened State
  import opened NodeTypes
  import opened ReplanCoordinator
  import opened Runtime
  import opened Events
  import ExecutorNode
  import StrictReviewNode

  /** The event is a turn at that step. */
  predicate At(v: View, e: Event, step: RuntimeStep) {
    e.Turning? && v.step == step
  }

  predicate ContinuesBudget(v: View, e: Event) {
    e == Resolving(Retry, if e.Resolving? then e.now else 0)
    && v.s.interrupt.Some? && v.s.interrupt.value.reason == "budget_exceeded"
  }

  /** The fields a write touches, by who may touch them. */
  predicate Within(w: StateUpdate, planner: bool, executor: bool, strict: bool, setup: bool, panic: bool,
                   resumed: bool) {
    && w.artifacts == [] && w.githubIssue.None? && w.executorSession.None?
    && (w.plannerSession.Some? ==> planner)
    && (w.walking.Some? || w.clearWalking ==> executor)
    && (w.replan.Some? || w.clearReplan ==> planner || setup)
    && (w.accumulated.Some? || w.accumulatedDelta != [] ==> planner || executor || strict)
    && (w.subTaskResults != [] ==> executor || strict)
    && (w.modelUsages != [] || w.phaseUsages != [] || w.tokenUsageDelta != 0 ==> planner || executor || strict)
    && (w.errors != [] ==> panic)
    && (w.budgetStartedAt.Some? ==> resumed)
  }

  predicate OutputWithin(out: NodeOutput, step: RuntimeStep) {
    forall i :: 0 <= i < |out.updates| ==>
      Within(out.updates[i], step == Planner, step == Executor, step == StrictReview, step == ReplanSetup, false, false)
  }

  lemma HeldWithin(s: HermesState, res: ExecutorNode.RunResult, errText: Text, now: int)
    requires InRange(s)
    ensures OutputWithin(ExecutorNode.HandOff(s, res), Executor)
    ensures OutputWithin(ExecutorNode.Pause(s, res, errText, now), Executor)
  {
  }

  lemma FinishWithin(cfg: Config, s: HermesState, res: ExecutorNode.RunResult, status: SubTaskStatus, text: Text,
                     reason: string)
    requires InRange(s)
    ensures OutputWithin(ExecutorNode.Finish(cfg, s, res, status, text, reason), Executor)
  {
  }

  lemma ExecutorWithin(cfg: Config, s: HermesState, a: ExecutorNode.RunAnswer, now: int)
    requires ExecutorNode.Handle(cfg, s, a, now).Ok?
    ensures OutputWithin(ExecutorNode.Handle(cfg, s, a, now).value, Executor)
  {
    if !AlreadyDone(s.plan[s.currentIdx]) {
      var errText := if a.err.Some? then a.err.value else [];
      HeldWithin(s, a.res, errText, now);
      FinishWithin(cfg, s, a.res, SubFailed, errText, "subtask_failed");
      FinishWithin(cfg, s, a.res, SubDone, a.res.text, "subtask_done");
    }
  }

  lemma SendBackWithin(s: HermesState, res: StrictReviewNode.ReviewResult)
    requires InRange(s)
    ensures OutputWithin(StrictReviewNode.SendBack(s, res), StrictReview)
  {
  }

  lemma AdvanceWithin(cfg: Config, s: HermesState, res: StrictReviewNode.ReviewResult, final: SubTask, reason: string)
    requires InRange(s)
    ensures OutputWithin(StrictReviewNode.Advance(cfg, s, res, final, reason), StrictReview)
  {
  }

  lemma PassWithin(cfg: Config, s: HermesState, a: Option<StrictReviewNode.ReviewResult>)
    requires InRange(s)
    ensures OutputWithin(StrictReviewNode.Pass(cfg, s, a), StrictReview)
  {
  }

  lemma StrictReviewWithin(cfg: Config, s: HermesState, a: Option<StrictReviewNode.ReviewResult>)
    requires StrictReviewNode.Handle(cfg, s, a).Ok?
    ensures OutputWithin(StrictReviewNode.Handle(cfg, s, a).value, StrictReview)
  {
    PassWithin(cfg, s, a);
    if a.Some? {
      var sub := s.plan[s.currentIdx];
      SendBackWithin(s, a.value);
      AdvanceWithin(cfg, s, a.value, StrictReviewNode.Skipped(sub, a.value), "strict_review_block_budget_exhausted");
      AdvanceWithin(cfg, s, a.value, StrictReviewNode.Failed(sub, a.value), "strict_review_fail");
    }
  }

  lemma DispatchWithin(cfg: Config, c: Coordinator, v: View, t: Tick)
    requires Registered(v.step) && Dispatch(cfg, c, v.s, v.step, t).0.Ok?
    ensures OutputWithin(Dispatch(cfg, c, v.s, v.step, t).0.value, v.step)
  {
    if v.step == Executor {
      ExecutorWithin(cfg, v.s, t.run, t.now);
    } else if v.step == StrictReview {
      StrictReviewWithin(cfg, v.s, t.strict);
    }
  }

  predicate EventWithin(v: View, e: Event, w: StateUpdate) {
    Within(w, At(v, e, Planner), At(v, e, Executor), At(v, e, StrictReview), At(v, e, ReplanSetup),
           e.Turning? && e.tick.panic.Some?, ContinuesBudget(v, e))
  }

  lemma CauseWithin(cfg: Config, c: Coordinator, v: View, e: Event)
    ensures EventWithin(v, e, CauseWrite(v.s, CauseOf(cfg, c, v, e)))
  {
    CauseFacts(cfg, c, v, e);
    match CauseOf(cfg, c, v, e)
    case Dispatched(out) => DispatchWithin(cfg, c, v, e.tick);
    case Resolved(commit) => ResolutionWithin(v, e);
    case Ending(w) => EndingWithin(cfg, c, v, e);
    case _ =>
  }

  lemma ResolutionWithin(v: View, e: Event)
    requires e.Resolving? && e.decision != Abort && Resolution(v.s, e.decision, e.now).Ok?
    ensures EventWithin(v, e, Write(Resolution(v.s, e.decision, e.now).value))
  {
  }

  lemma EndingWithin(cfg: Config, c: Coordinator, v: View, e: Event)
    requires CauseOf(cfg, c, v, e).Ending?
    ensures EventWithin(v, e, CauseOf(cfg, c, v, e).write)
  {
  }

  /** What no run changes: who the task is, what it is for, and the caps of its budget. */
  predicate SameTask(s: HermesState, s': HermesState) {
    && s'.ident == s.ident && s'.goal == s.goal && s'.githubIssue == s.githubIssue
    && s'.executorSession == s.executorSession && s'.artifacts == s.artifacts
    && s'.budget.maxTotalTokens == s.budget.maxTotalTokens
    && s'.budget.maxWallclockSeconds == s.budget.maxWallclockSeconds
  }

  /** What only certain events change. */
  predicate InFrame(v: View, e: Event, s': HermesState) {
    && SameTask(v.s, s')
    && (s'.plannerSession != v.s.plannerSession ==> At(v, e, Planner))
    && (s'.walking != v.s.walking ==> At(v, e, Executor))
    && (s'.replan != v.s.replan ==> At(v, e, Planner) || At(v, e, ReplanSetup))
    && (s'.accumulated != v.s.accumulated ==> At(v, e, Planner) || At(v, e, Executor) || At(v, e, StrictReview))
    && (s'.subTaskResults != v.s.subTaskResults ==> At(v, e, Executor) || At(v, e, StrictReview))
    && (s'.modelUsages != v.s.modelUsages || s'.phaseUsages != v.s.phaseUsages
        || s'.budget.usedTokens != v.s.budget.usedTokens ==>
          At(v, e, Planner) || At(v, e, Executor) || At(v, e, StrictReview))
    && (s'.errors != v.s.errors ==> e.Turning? && e.tick.panic.Some?)
    && (s'.budget.startedAt != v.s.budget.startedAt ==> ContinuesBudget(v, e))
  }

  lemma WriteInFrame(v: View, e: Event, w: StateUpdate)
    requires EventWithin(v, e, w)
    ensures InFrame(v, e, Effect(v.s, w))
  {
    assert v.s.artifacts + [] == v.s.artifacts && v.s.errors + [] == v.s.errors;
  }

  /** Every event, whatever it is, stays in its frame. */
  lemma EventFrame(cfg: Config, c: Coordinator, v: View, e: Event)
    ensures InFrame(v, e, After(cfg, c, v, e).s)
  {
    var w := CauseWrite(v.s, CauseOf(cfg, c, v, e));
    CauseWithin(cfg, c, v, e);
    CauseIsWrite(cfg, c, v, e);
    WriteInFrame(v, e, w);
  }

  /** Only the planner and the replan setup touch the pending replan. */
  lemma UnplannedReplan(cfg: Config, c: Coordinator, v: View, e: Event)
    requires !(CauseOf(cfg, c, v, e).Dispatched? && (v.step == Planner || v.step == ReplanSetup))
    ensures After(cfg, c, v, e).s.replan == v.s.replan
  {
    EventFrame(cfg, c, v, e);
    if e.Turning? && (v.step == Planner || v.step == ReplanSetup) {
      CauseExplains(cfg, c, v, e);
      CauseFacts(cfg, c, v, e);
    }
  }

  /** No run changes what the task is. */
  lemma {:induction false} RunsKeepTask(cfg: Config, l: Live, es: seq<Event>)
    ensures SameTask(l.v.s, Run(cfg, l, es).v.s)
    decreases |es|
  {
    if es == [] {
    } else {
      var before := Run(cfg, l, es[..|es| - 1]);
      RunsKeepTask(cfg, l, es[..|es| - 1]);
      EventFrame(cfg, before.coord, before.v, es[|es| - 1]);
    }
  }
}

/** What a stretch of events between two planner turns did to each sub-task, accounted for by the runner's answers. */
module AttemptAccounts {
  import opened State
  import opened NodeTypes
  import opened ReplanCoordinator
  import opened Runtime
  import opened Events
  import opened PlanProgress
  import opened FinishedWork
  import ExecutorNode
  import StrictReviewNode

  type RunAnswer = ExecutorNode.RunAnswer

  /** The text an answer leaves in the plan. */
  function TextOf(a: RunAnswer): Text {
    if a.err.Some? then a.err.value else a.res.text
  }

  /** The runner's answer that an event commits, if it is a runner call. */
  function Answer(cfg: Config, c: Coordinator, v: View, e: Event): Option<RunAnswer> {
    if e.Turning? && e.tick.panic.None? && CallsRunner(v, e.tick)
       && Accepts(v.s, CauseWrite(v.s, CauseOf(cfg, c, v, e)))
    then Some(e.tick.run) else None
  }

  /** A runner call spends one attempt and its tokens, and leaves its text; only a success makes the entry done. */
  predicate CallEntry(s: HermesState, out: NodeOutput, a: RunAnswer)
    requires InRange(s)
  {
    && |out.updates| == 1 && out.updates[0].plan.Some? && |out.updates[0].plan.value| == |s.plan|
    && var was, now := s.plan[s.currentIdx], out.updates[0].plan.value[s.currentIdx];
    && now.attempts == was.attempts + 1 && now.tokensUsed == was.tokensUsed + a.res.TokenVolume()
    && now.result == TextOf(a)
    && (now.status == SubDone || out.nextStep == StrictReview ==> a.err.None?)
    && (out.updates[0].interrupt.Some? ==> out.updates[0].interrupt.value.reason != "budget_exceeded")
  }

  lemma PauseEntry(s: HermesState, a: RunAnswer, now: int)
    requires InRange(s) && !AlreadyDone(s.plan[s.currentIdx]) && a.err.Some?
    ensures CallEntry(s, ExecutorNode.Pause(s, a.res, a.err.value, now), a)
  {
  }

  lemma HandOffEntry(s: HermesState, a: RunAnswer)
    requires InRange(s) && a.err.None?
    ensures CallEntry(s, ExecutorNode.HandOff(s, a.res), a)
  {
  }

  lemma FinishEntry(cfg: Config, s: HermesState, a: RunAnswer, status: SubTaskStatus, reason: string)
    requires InRange(s) && (status == SubDone ==> a.err.None?)
    ensures CallEntry(s, ExecutorNode.Finish(cfg, s, a.res, status, TextOf(a), reason), a)
  {
  }

  lemma CallWrites(cfg: Config, s: HermesState, a: RunAnswer, now: int)
    requires InRange(s) && !AlreadyDone(s.plan[s.currentIdx])
    ensures ExecutorNode.Handle(cfg, s, a, now).Ok?
    ensures CallEntry(s, ExecutorNode.Handle(cfg, s, a, now).value, a)
  {
    if a.err.Some? {
      PauseEntry(s, a, now);
      FinishEntry(cfg, s, a, SubFailed, "subtask_failed");
    } else {
      HandOffEntry(s, a);
      FinishEntry(cfg, s, a, SubDone, "subtask_done");
    }
  }

  /** A strict review spends neither attempts nor tokens of the entry, and accepts or returns it with its text. */
  predicate ReviewEntry(s: HermesState, out: NodeOutput)
    requires InRange(s)
  {
    && |out.updates| == 1 && out.updates[0].plan.Some? && |out.updates[0].plan.value| == |s.plan|
    && var was, now := s.plan[s.currentIdx], out.updates[0].plan.value[s.currentIdx];
    && now.attempts == was.attempts && now.tokensUsed == was.tokensUsed
    && (now.status == SubDone || out.updates[0].currentIdx.None? ==> now.result == was.result)
    && (out.updates[0].currentIdx.Some? ==> out.updates[0].currentIdx.value == s.currentIdx + 1)
  }

  lemma SendBackEntry(s: HermesState, res: StrictReviewNode.ReviewResult)
    requires InRange(s)
    ensures ReviewEntry(s, StrictReviewNode.SendBack(s, res))
  {
  }

  lemma AdvanceEntry(cfg: Config, s: HermesState, res: StrictReviewNode.ReviewResult, final: SubTask, reason: string)
    requires InRange(s) && final.status != SubDone
    requires final.attempts == s.plan[s.currentIdx].attempts && final.tokensUsed == s.plan[s.currentIdx].tokensUsed
    ensures ReviewEntry(s, StrictReviewNode.Advance(cfg, s, res, final, reason))
  {
  }

  lemma PassEntry(cfg: Config, s: HermesState, a: Option<StrictReviewNode.ReviewResult>)
    requires InRange(s)
    ensures ReviewEntry(s, StrictReviewNode.Pass(cfg, s, a))
  {
  }

  lemma ReviewWrites(cfg: Config, s: HermesState, a: Option<StrictReviewNode.ReviewResult>)
    requires InRange(s)
    ensures StrictReviewNode.Handle(cfg, s, a).Ok?
    ensures ReviewEntry(s, StrictReviewNode.Handle(cfg, s, a).value)
  {
    PassEntry(cfg, s, a);
    if a.Some? {
      var sub := s.plan[s.currentIdx];
      SendBackEntry(s, a.value);
      AdvanceEntry(cfg, s, a.value, StrictReviewNode.Skipped(sub, a.value), "strict_review_block_budget_exhausted");
      AdvanceEntry(cfg, s, a.value, StrictReviewNode.Failed(sub, a.value), "strict_review_fail");
    }
  }

  /** A runner call, as an event: the state takes the executor's write. */
  lemma CallIsWrite(cfg: Config, c: Coordinator, v: View, e: Event)
    requires Answer(cfg, c, v, e).Some?
    ensures var r := ExecutorNode.Handle(cfg, v.s, e.tick.run, e.tick.now);
      r.Ok? && After(cfg, c, v, e) == View(Effect(v.s, NodeWrite(v.s, r.value)), r.value.nextStep)
  {
    CallWrites(cfg, v.s, e.tick.run, e.tick.now);
    CauseExplains(cfg, c, v, e);
  }

  /** Somebody waits to review the entry at the pointer, now or after a budget stop. */
  predicate Awaits(v: View) {
    || v.step == StrictReview
    || (v.s.interrupt.Some? && v.s.interrupt.value.reason == "budget_exceeded"
        && v.s.interrupt.value.resumeStep == StrictReview)
  }

  /**
    What an event without a runner call leaves of the entry at the pointer: its attempts and
    its tokens, and its text unless it gives the entry up. Only a strict review makes it
    done, and nobody is set to review it who was not before.
   */
  predicate Quiet(v: View, v': View) {
    && |v'.s.plan| == |v.s.plan|
    && (InRange(v.s) ==>
          var was, now := v.s.plan[v.s.currentIdx], v'.s.plan[v.s.currentIdx];
          && now.attempts == was.attempts && now.tokensUsed == was.tokensUsed
          && (now.status == SubDone || v'.s.currentIdx == v.s.currentIdx ==> now.result == was.result)
          && (now.status == SubDone && was.status != SubDone ==> v.step == StrictReview))
    && (Awaits(v') ==> Awaits(v))
  }

  lemma RoutesQuietly(v: View, w: StateUpdate, next: RuntimeStep)
    requires Routes(w) && next != StrictReview
    ensures Quiet(v, View(Effect(v.s, w), next))
  {
  }

  lemma ResolvesQuietly(v: View, d: Choice, now: int)
    requires Resolution(v.s, d, now).Ok? && d != Abort
    ensures var commit := Resolution(v.s, d, now).value;
      Quiet(v, View(Effect(v.s, Write(commit)), commit.nextStep))
  {
  }

  lemma ReviewsQuietly(cfg: Config, v: View, a: Option<StrictReviewNode.ReviewResult>)
    requires v.step == StrictReview && InRange(v.s)
    ensures StrictReviewNode.Handle(cfg, v.s, a).Ok?
    ensures var out := StrictReviewNode.Handle(cfg, v.s, a).value;
      Quiet(v, View(Effect(v.s, NodeWrite(v.s, out)), out.nextStep))
  {
    ReviewWrites(cfg, v.s, a);
    var out := StrictReviewNode.Handle(cfg, v.s, a).value;
    NodeWriteShape(v.s, out);
    WritesQuietly(v, NodeWrite(v.s, out), out.nextStep);
  }

  /** A write of a strict review's shape. */
  lemma WritesQuietly(v: View, w: StateUpdate, next: RuntimeStep)
    requires v.step == StrictReview && InRange(v.s) && w.plan.Some? && |w.plan.value| == |v.s.plan|
    requires var was, now := v.s.plan[v.s.currentIdx], w.plan.value[v.s.currentIdx];
      && now.attempts == was.attempts && now.tokensUsed == was.tokensUsed
      && (now.status == SubDone || w.currentIdx.None? ==> now.result == was.result)
    requires w.currentIdx.Some? ==> w.currentIdx.value == v.s.currentIdx + 1
    ensures Quiet(v, View(Effect(v.s, w), next))
  {
  }

  lemma PassesQuietly(cfg: Config, v: View, a: RunAnswer, now: int)
    requires v.step == Executor && InRange(v.s) && AlreadyDone(v.s.plan[v.s.currentIdx])
    ensures ExecutorNode.Handle(cfg, v.s, a, now).Ok?
    ensures var out := ExecutorNode.Handle(cfg, v.s, a, now).value;
      Quiet(v, View(Effect(v.s, NodeWrite(v.s, out)), out.nextStep))
  {
  }

  lemma DispatchesQuietly(cfg: Config, c: Coordinator, v: View, t: Tick)
    requires Settled(v) && Gate(v.s, v.step, t.now).None? && v.step != Planner && !CallsRunner(v, t)
    requires Dispatch(cfg, c, v.s, v.step, t).0.Ok?
    ensures var out := Dispatch(cfg, c, v.s, v.step, t).0.value;
      Quiet(v, View(Effect(v.s, NodeWrite(v.s, out)), out.nextStep))
  {
    if v.step == StrictReview {
      ReviewsQuietly(cfg, v, t.strict);
    } else if v.step == Executor {
      PassesQuietly(cfg, v, t.run, t.now);
    } else {
      RouterSettles(cfg, c, v, t);
      var out := Dispatch(cfg, c, v.s, v.step, t).0.value;
      RoutesQuietly(v, NodeWrite(v.s, out), out.nextStep);
    }
  }

  /** An event without a runner call is quiet. */
  lemma OthersAreQuiet(cfg: Config, c: Coordinator, v: View, e: Event)
    requires Settled(v) && !PlannerTurn(v, e) && Answer(cfg, c, v, e).None?
    ensures Quiet(v, After(cfg, c, v, e))
  {
    CauseExplains(cfg, c, v, e);
    CauseFacts(cfg, c, v, e);
    match CauseOf(cfg, c, v, e)
    case Dispatched(out) =>
      if !CallsRunner(v, e.tick) {
        DispatchesQuietly(cfg, c, v, e.tick);
      } else {
        UncommittedCall(cfg, c, v, e);
      }
    case Resolved(_) => ResolvesQuietly(v, e.decision, e.now);
    case Ending(w) => RoutesQuietly(v, w, Terminal);
    case Interrupting(i) => InterruptingFacts(cfg, c, v, e);
    case Nothing =>
  }

  lemma UncommittedCall(cfg: Config, c: Coordinator, v: View, e: Event)
    requires Answer(cfg, c, v, e).None? && CauseOf(cfg, c, v, e).Dispatched? && CallsRunner(v, e.tick)
    ensures After(cfg, c, v, e) == v
  {
    CauseExplains(cfg, c, v, e);
    CauseFacts(cfg, c, v, e);
  }

  /**
    A runner call spends one attempt and its tokens, leaves its text, and makes the entry
    done, or asks for a review, only on success.
   */
  predicate Accounts(v: View, v': View, a: RunAnswer) {
    && InRange(v.s) && |v'.s.plan| == |v.s.plan|
    && var was, now := v.s.plan[v.s.currentIdx], v'.s.plan[v.s.currentIdx];
    && now.attempts == was.attempts + 1 && now.tokensUsed == was.tokensUsed + a.res.TokenVolume()
    && now.result == TextOf(a)
    && (now.status == SubDone || Awaits(v') ==> a.err.None?)
  }

  lemma EntryAccounts(v: View, out: NodeOutput, a: RunAnswer)
    requires InRange(v.s) && CallEntry(v.s, out, a) && v.s.interrupt.None?
    ensures Accounts(v, View(Effect(v.s, NodeWrite(v.s, out)), out.nextStep), a)
  {
    var w := NodeWrite(v.s, out);
    assert w.plan == out.updates[0].plan && w.interrupt == out.updates[0].interrupt;
  }

  lemma CallAccounts(cfg: Config, c: Coordinator, v: View, e: Event)
    requires Answer(cfg, c, v, e).Some?
    ensures Accounts(v, After(cfg, c, v, e), Answer(cfg, c, v, e).value)
  {
    CallIsWrite(cfg, c, v, e);
    CallWrites(cfg, v.s, e.tick.run, e.tick.now);
    EntryAccounts(v, ExecutorNode.Handle(cfg, v.s, e.tick.run, e.tick.now).value, e.tick.run);
  }

  // ---------- Accounts over a stretch of events ----------

  /** The runner's answers about sub-task i in a stretch of events. */
  function Answers(cfg: Config, l: Live, es: seq<Event>, i: nat): seq<RunAnswer>
    decreases |es|
  {
    if es == [] then []
    else
      var before := Run(cfg, l, es[..|es| - 1]);
      var a := Answer(cfg, before.coord, before.v, es[|es| - 1]);
      Answers(cfg, l, es[..|es| - 1], i) + if a.Some? && before.v.s.currentIdx == i then [a.value] else []
  }

  function Volume(answers: seq<RunAnswer>): int {
    if answers == [] then 0
    else Volume(answers[..|answers| - 1]) + answers[|answers| - 1].res.TokenVolume()
  }

  /**
    What the answers about a sub-task explain of it: each spent one attempt and its tokens.
    When it is done, the last answer was a success and its text is the result. While it is
    open at the pointer, the last answer's text stands there, and only a success is reviewed.
   */
  predicate Explained(was: SubTask, v: View, i: nat, answers: seq<RunAnswer>)
    requires i < |v.s.plan|
  {
    var now := v.s.plan[i];
    && now.attempts == was.attempts + |answers|
    && now.tokensUsed == was.tokensUsed + Volume(answers)
    && (answers != [] ==>
          var last := answers[|answers| - 1];
          && i <= v.s.currentIdx
          && (now.status == SubDone ==> last.err.None? && now.result == last.res.text)
          && (i == v.s.currentIdx && !AlreadyDone(now) ==>
                now.result == TextOf(last) && (Awaits(v) ==> last.err.None?)))
  }

  lemma CallExplained(was: SubTask, v: View, v': View, answers: seq<RunAnswer>, a: RunAnswer)
    requires InRange(v.s) && Explained(was, v, v.s.currentIdx, answers)
    requires Accounts(v, v', a) && OneEntry(v.s, v'.s)
    ensures Explained(was, v', v.s.currentIdx, answers + [a])
  {
    assert (answers + [a])[..|answers|] == answers;
  }

  lemma QuietExplained(was: SubTask, v: View, v': View, i: nat, answers: seq<RunAnswer>)
    requires i < |v.s.plan| && Explained(was, v, i, answers) && Settled(v)
    requires Quiet(v, v') && OneEntry(v.s, v'.s)
    requires AlreadyDone(v.s.plan[i]) ==> v'.s.plan[i] == v.s.plan[i]
    ensures Explained(was, v', i, answers)
  {
  }

  lemma OtherEntryExplained(was: SubTask, v: View, v': View, i: nat, answers: seq<RunAnswer>)
    requires i < |v.s.plan| && i != v.s.currentIdx && Explained(was, v, i, answers) && OneEntry(v.s, v'.s)
    ensures Explained(was, v', i, answers)
  {
  }

  /**
    Between two planner turns every sub-task is accounted for: its attempts and tokens have
    grown by the runner calls made on it, and a result that stands is what the last call said.
   */
  lemma {:induction false} AttemptAccountsFor(cfg: Config, l: Live, es: seq<Event>, i: nat)
    requires Settled(l.v) && OneAttempt(cfg, l, es) && i < |l.v.s.plan|
    ensures i < |Run(cfg, l, es).v.s.plan|
    ensures Explained(l.v.s.plan[i], Run(cfg, l, es).v, i, Answers(cfg, l, es, i))
    decreases |es|
  {
    AttemptAdvances(cfg, l, es);
    if es != [] {
      var init, e := es[..|es| - 1], es[|es| - 1];
      var before := Run(cfg, l, init);
      AttemptAccountsFor(cfg, l, init, i);
      RunsStaySettled(cfg, l, init);
      EventExplained(cfg, before.coord, before.v, e, i, l.v.s.plan[i], Answers(cfg, l, init, i));
    }
  }

  lemma EventExplained(cfg: Config, c: Coordinator, v: View, e: Event, i: nat, was: SubTask, answers: seq<RunAnswer>)
    requires Settled(v) && !PlannerTurn(v, e) && i < |v.s.plan| && Explained(was, v, i, answers)
    ensures var v', a := After(cfg, c, v, e), Answer(cfg, c, v, e);
      && i < |v'.s.plan|
      && Explained(was, v', i, answers + if a.Some? && v.s.currentIdx == i then [a.value] else [])
  {
    EventKeeps(cfg, c, v, e);
    EventKeepsDone(cfg, c, v, e);
    var v', a := After(cfg, c, v, e), Answer(cfg, c, v, e);
    assert answers + [] == answers;
    if v.s.currentIdx != i {
      OtherEntryExplained(was, v, v', i, answers);
    } else if a.Some? {
      CallAccounts(cfg, c, v, e);
      CallExplained(was, v, v', answers, a.value);
    } else {
      OthersAreQuiet(cfg, c, v, e);
      QuietExplained(was, v, v', i, answers);
    }
  }
}

/** The rolling summary over whole runs: what it tells, and that it stays bounded and well-formed. */
module SummaryRuns {
  import opened State
  import opened Utf8
  import opened RollingSummary
  import opened NodeTypes
  import opened PartialRetry
  import opened ReplanCoordinator
  import opened Runtime
  import opened Events
  import opened PlanProgress
  import opened FinishedWork
  import opened RunFrames
  import ExecutorNode
  import PlannerNode
  import StrictReviewNode

  /** The event has finished the sub-task at the pointer as done. */
  predicate NewlyDone(s: HermesState, s': HermesState) {
    && InRange(s) && !AlreadyDone(s.plan[s.currentIdx]) && |s'.plan| == |s.plan|
    && s'.currentIdx == s.currentIdx + 1 && s'.plan[s.currentIdx].status == SubDone
  }

  /** The results that an event adds to the summary: that of a sub-task newly done, if it has any text. */
  function Reported(cfg: Config, s: HermesState, s': HermesState): seq<seq<Rune>> {
    if NewlyDone(s, s') && s'.plan[s.currentIdx].result != [] then [cfg.extract(s'.plan[s.currentIdx].result)] else []
  }

  /** The summary has grown by exactly what was reported. */
  predicate Tells(cfg: Config, s: HermesState, s': HermesState) {
    s'.accumulated ==
      if Reported(cfg, s, s') == [] then s.accumulated
      else Appended(s.accumulated, Conclusion(Reported(cfg, s, s')[0]))
  }

  /** The summary that a finished sub-task leaves. */
  function SummaryWith(cfg: Config, s: HermesState, sub: SubTask): Option<Text> {
    if sub.status == SubDone && sub.result != []
    then Some(Appended(s.accumulated, Conclusion(cfg.extract(sub.result)))) else None
  }

  /** A write that moves past the entry at the pointer, with the summary to match. */
  lemma EntryTells(cfg: Config, s: HermesState, w: StateUpdate, sub: SubTask)
    requires InRange(s) && !AlreadyDone(s.plan[s.currentIdx])
    requires w.plan == Some(s.plan[s.currentIdx := sub]) && w.currentIdx == Some(s.currentIdx + 1)
    requires w.accumulatedDelta == [] && w.accumulated == SummaryWith(cfg, s, sub)
    ensures Tells(cfg, s, Effect(s, w))
  {
  }

  /** A write that stays at the entry, or moves past a finished one, and leaves the summary. */
  lemma SilentTells(cfg: Config, s: HermesState, w: StateUpdate)
    requires w.accumulatedDelta == [] && w.accumulated.None?
    requires w.currentIdx.None? || (InRange(s) && AlreadyDone(s.plan[s.currentIdx]))
    ensures Tells(cfg, s, Effect(s, w))
  {
  }

  lemma HeldTells(cfg: Config, s: HermesState, res: ExecutorNode.RunResult, errText: Text, now: int)
    requires InRange(s)
    ensures Tells(cfg, s, Effect(s, NodeWrite(s, ExecutorNode.HandOff(s, res))))
    ensures Tells(cfg, s, Effect(s, NodeWrite(s, ExecutorNode.Pause(s, res, errText, now))))
  {
    SilentTells(cfg, s, NodeWrite(s, ExecutorNode.HandOff(s, res)));
    SilentTells(cfg, s, NodeWrite(s, ExecutorNode.Pause(s, res, errText, now)));
  }

  lemma FinishTells(cfg: Config, s: HermesState, res: ExecutorNode.RunResult, status: SubTaskStatus, text: Text,
                    reason: string)
    requires InRange(s) && !AlreadyDone(s.plan[s.currentIdx])
    ensures Tells(cfg, s, Effect(s, NodeWrite(s, ExecutorNode.Finish(cfg, s, res, status, text, reason))))
  {
    var out, sub := ExecutorNode.Finish(cfg, s, res, status, text, reason), s.plan[s.currentIdx];
    NodeWriteShape(s, out);
    EntryTells(cfg, s, NodeWrite(s, out),
               sub.(status := status, result := text, tokensUsed := sub.tokensUsed + res.TokenVolume(),
                    attempts := sub.attempts + 1));
  }

  lemma ExecutorTells(cfg: Config, s: HermesState, a: ExecutorNode.RunAnswer, now: int)
    requires ExecutorNode.Handle(cfg, s, a, now).Ok?
    ensures Tells(cfg, s, Effect(s, NodeWrite(s, ExecutorNode.Handle(cfg, s, a, now).value)))
  {
    if !AlreadyDone(s.plan[s.currentIdx]) {
      var errText := if a.err.Some? then a.err.value else [];
      HeldTells(cfg, s, a.res, errText, now);
      FinishTells(cfg, s, a.res, SubFailed, errText, "subtask_failed");
      FinishTells(cfg, s, a.res, SubDone, a.res.text, "subtask_done");
    } else {
      SilentTells(cfg, s, NodeWrite(s, ExecutorNode.Handle(cfg, s, a, now).value));
    }
  }

  lemma StrictReviewTells(cfg: Config, s: HermesState, a: Option<StrictReviewNode.ReviewResult>)
    requires InRange(s) && !AlreadyDone(s.plan[s.currentIdx])
    ensures StrictReviewNode.Handle(cfg, s, a).Ok?
    ensures Tells(cfg, s, Effect(s, NodeWrite(s, StrictReviewNode.Handle(cfg, s, a).value)))
  {
    var out, sub := StrictReviewNode.Handle(cfg, s, a).value, s.plan[s.currentIdx];
    NodeWriteShape(s, out);
    if a.None? || (a.value.verdict != "block" && a.value.verdict != "fail") {
      EntryTells(cfg, s, NodeWrite(s, out), sub.(status := SubDone, strictRetryFeedback := []));
    } else if a.value.verdict == "fail" {
      EntryTells(cfg, s, NodeWrite(s, out),
                 sub.(status := SubFailed, strictRetryFeedback := [],
                      result := if a.value.feedback != [] then a.value.feedback else sub.result));
    } else if sub.attempts >= cfg.maxRetriesPerSub {
      EntryTells(cfg, s, NodeWrite(s, out),
                 sub.(status := SubSkipped, strictRetryFeedback := [],
                      result := StrictReviewNode.PartialResult(sub.result, a.value.feedback)));
    } else {
      SilentTells(cfg, s, NodeWrite(s, out));
    }
  }

  /** Every other event leaves the summary alone and finishes nothing. */
  lemma OthersTell(cfg: Config, c: Coordinator, v: View, e: Event)
    requires Settled(v) && !PlannerTurn(v, e)
    requires !(CauseOf(cfg, c, v, e).Dispatched? && (v.step == Executor || v.step == StrictReview))
    ensures Tells(cfg, v.s, Events.After(cfg, c, v, e).s)
  {
    CauseExplains(cfg, c, v, e);
    CauseFacts(cfg, c, v, e);
    match CauseOf(cfg, c, v, e)
    case Dispatched(out) => RouterTells(cfg, c, v, e.tick);
    case Resolved(_) => ResolutionTells(cfg, v.s, e.decision, e.now);
    case Ending(w) => EndingTells(cfg, v.s, w);
    case Interrupting(i) => InterruptTells(cfg, v.s, i);
    case Nothing => SameTells(cfg, v.s);
  }

  lemma EndingTells(cfg: Config, s: HermesState, w: StateUpdate)
    requires EndingWrite(w)
    ensures Tells(cfg, s, Effect(s, w)) && Tells(cfg, s, s)
  {
    SilentTells(cfg, s, w);
    SameTells(cfg, s);
  }

  lemma InterruptTells(cfg: Config, s: HermesState, i: Interrupt)
    ensures Tells(cfg, s, Effect(s, NO_UPDATE.(interrupt := Some(i))))
  {
    SilentTells(cfg, s, NO_UPDATE.(interrupt := Some(i)));
  }

  lemma SameTells(cfg: Config, s: HermesState)
    ensures Tells(cfg, s, s)
  {
  }

  lemma RouterTells(cfg: Config, c: Coordinator, v: View, t: Tick)
    requires Settled(v) && Registered(v.step) && Dispatch(cfg, c, v.s, v.step, t).0.Ok?
    requires v.step != Planner && v.step != Executor && v.step != StrictReview
    ensures Tells(cfg, v.s, Effect(v.s, NodeWrite(v.s, Dispatch(cfg, c, v.s, v.step, t).0.value)))
  {
    RouterSettles(cfg, c, v, t);
    DispatchWithin(cfg, c, v, t);
    SilentTells(cfg, v.s, NodeWrite(v.s, Dispatch(cfg, c, v.s, v.step, t).0.value));
  }

  lemma ResolutionTells(cfg: Config, s: HermesState, d: Choice, now: int)
    requires Resolution(s, d, now).Ok? && d != Abort
    ensures Tells(cfg, s, Effect(s, Write(Resolution(s, d, now).value)))
  {
  }

  /** Outside planner turns the summary grows by exactly the results of the sub-tasks that become done. */
  lemma EventTells(cfg: Config, c: Coordinator, v: View, e: Event)
    requires Settled(v) && !PlannerTurn(v, e)
    ensures Tells(cfg, v.s, Events.After(cfg, c, v, e).s)
  {
    CauseFacts(cfg, c, v, e);
    if CauseOf(cfg, c, v, e).Dispatched? && v.step == Executor {
      CauseExplains(cfg, c, v, e);
      ExecutorTells(cfg, v.s, e.tick.run, e.tick.now);
    } else if CauseOf(cfg, c, v, e).Dispatched? && v.step == StrictReview {
      CauseExplains(cfg, c, v, e);
      StrictReviewTells(cfg, v.s, e.tick.strict);
    } else {
      OthersTell(cfg, c, v, e);
    }
  }

  /** What the sub-tasks that became done in a stretch of events reported, in order. */
  function Reports(cfg: Config, l: Live, es: seq<Event>): seq<seq<Rune>>
    decreases |es|
  {
    if es == [] then []
    else Reports(cfg, l, es[..|es| - 1]) + Reported(cfg, Run(cfg, l, es[..|es| - 1]).v.s, Run(cfg, l, es).v.s)
  }

  lemma OneMoreReport(start: Text, results: seq<seq<Rune>>, r: seq<Rune>)
    ensures Summary(start, results + [r]) == Appended(Summary(start, results), Conclusion(r))
  {
    assert (results + [r])[..|results|] == results;
  }

  /** Between two planner turns the summary is the rolling summary of what the finished sub-tasks reported. */
  lemma {:induction false} AttemptSummary(cfg: Config, l: Live, es: seq<Event>)
    requires Settled(l.v) && OneAttempt(cfg, l, es)
    ensures Run(cfg, l, es).v.s.accumulated == Summary(l.v.s.accumulated, Reports(cfg, l, es))
    decreases |es|
  {
    if es == [] {
    } else {
      var init := es[..|es| - 1];
      var before := Run(cfg, l, init);
      AttemptSummary(cfg, l, init);
      RunsStaySettled(cfg, l, init);
      EventTells(cfg, before.coord, before.v, es[|es| - 1]);
      var added := Reported(cfg, before.v.s, Run(cfg, l, es).v.s);
      assert Reports(cfg, l, init) + [] == Reports(cfg, l, init);
      if added != [] {
        OneMoreReport(l.v.s.accumulated, Reports(cfg, l, init), added[0]);
        assert added == [added[0]];
      }
    }
  }

  /** So it is the window that ends with the newest report. */
  lemma AttemptSummaryIsWindow(cfg: Config, l: Live, es: seq<Event>) returns (k: nat)
    requires Settled(l.v) && OneAttempt(cfg, l, es) && |l.v.s.accumulated| <= CHEAP_PATH_MAX_BYTES
    ensures var reports, text := Reports(cfg, l, es), Run(cfg, l, es).v.s.accumulated;
      && Window(FullLog(l.v.s.accumulated, reports), text, k, CHEAP_PATH_MAX_BYTES)
      && (reports != [] ==>
            var last := Conclusion(reports[|reports| - 1]);
            |last| <= |text| && text[|text| - |last|..] == last)
  {
    AttemptSummary(cfg, l, es);
    k := SummaryIsWindow(l.v.s.accumulated, Reports(cfg, l, es));
  }

  // ---------- Every reachable state ----------

  predicate Sound(t: Text) {
    |t| <= CHEAP_PATH_MAX_BYTES && Valid(t)
  }

  /** The summary is sound, and so is the one that a pending replan will start from. */
  predicate SoundSummaries(s: HermesState) {
    Sound(s.accumulated) && (s.replan.Some? ==> Sound(s.replan.value.accumulated))
  }

  lemma AppendStaysSound(t: Text, r: seq<Rune>)
    requires Sound(t)
    ensures Sound(Appended(t, Conclusion(r)))
  {
    OneMoreReport(t, [], r);
    var k := SummaryIsWindow(t, [r]);
    SummaryStaysValid(t, [r]);
    assert [] + [r] == [r];
  }

  lemma {:induction false} TranscriptIsSound(cfg: Config, preserved: seq<SubTask>)
    ensures Sound(Transcript(cfg, preserved))
    decreases |preserved|
  {
    if preserved == [] {
    } else {
      var before, last := preserved[..|preserved| - 1], preserved[|preserved| - 1];
      TranscriptIsSound(cfg, before);
      AppendStaysSound(Transcript(cfg, before), cfg.extract(last.result));
    }
  }

  lemma SetupIsSound(cfg: Config, c: Coordinator, s: HermesState, t: Tick)
    requires SoundSummaries(s) && Dispatch(cfg, c, s, ReplanSetup, t).0.Ok?
    ensures SoundSummaries(Effect(s, NodeWrite(s, Dispatch(cfg, c, s, ReplanSetup, t).0.value)))
  {
    if c.Some? {
      TranscriptIsSound(cfg, Filter(c.value.lastPlan, c.value.lastReview, cfg.scoreThreshold, true));
    }
  }

  lemma PlannerIsSound(cfg: Config, s: HermesState, a: PlannerNode.PlanAnswer)
    requires SoundSummaries(s) && PlannerNode.Handle(cfg, s, a).Ok?
    ensures SoundSummaries(Effect(s, NodeWrite(s, PlannerNode.Handle(cfg, s, a).value)))
  {
  }

  lemma ToldIsSound(cfg: Config, s: HermesState, s': HermesState)
    requires Sound(s.accumulated) && Tells(cfg, s, s')
    ensures Sound(s'.accumulated)
  {
    var added := Reported(cfg, s, s');
    if added != [] {
      AppendStaysSound(s.accumulated, added[0]);
    }
  }

  /** Outside the planner and the replan setup. */
  lemma WorkKeepsSummaries(cfg: Config, c: Coordinator, v: View, e: Event)
    requires Settled(v) && SoundSummaries(v.s) && !PlannerTurn(v, e)
    requires Events.After(cfg, c, v, e).s.replan == v.s.replan
    ensures SoundSummaries(Events.After(cfg, c, v, e).s)
  {
    EventTells(cfg, c, v, e);
    ToldIsSound(cfg, v.s, Events.After(cfg, c, v, e).s);
  }

  /** A planner turn that does not reach the planner. */
  lemma IdleKeepsSummaries(cfg: Config, c: Coordinator, v: View, e: Event)
    requires SoundSummaries(v.s) && PlannerTurn(v, e) && !CauseOf(cfg, c, v, e).Dispatched?
    ensures SoundSummaries(Events.After(cfg, c, v, e).s)
  {
    CauseExplains(cfg, c, v, e);
    CauseFacts(cfg, c, v, e);
  }

  lemma PlanningKeepsSummaries(cfg: Config, c: Coordinator, v: View, e: Event)
    requires SoundSummaries(v.s) && CauseOf(cfg, c, v, e).Dispatched? && (v.step == Planner || v.step == ReplanSetup)
    ensures SoundSummaries(Events.After(cfg, c, v, e).s)
  {
    CauseExplains(cfg, c, v, e);
    CauseFacts(cfg, c, v, e);
    if v.step == Planner {
      PlannerIsSound(cfg, v.s, e.tick.plan);
    } else {
      SetupIsSound(cfg, c, v.s, e.tick);
    }
  }

  /** Every event keeps the summaries sound. */
  lemma EventKeepsSummaries(cfg: Config, c: Coordinator, v: View, e: Event)
    requires Settled(v) && SoundSummaries(v.s)
    ensures SoundSummaries(Events.After(cfg, c, v, e).s)
  {
    if CauseOf(cfg, c, v, e).Dispatched? && (v.step == Planner || v.step == ReplanSetup) {
      PlanningKeepsSummaries(cfg, c, v, e);
    } else if PlannerTurn(v, e) {
      IdleKeepsSummaries(cfg, c, v, e);
    } else {
      UnplannedReplan(cfg, c, v, e);
      WorkKeepsSummaries(cfg, c, v, e);
    }
  }

  /** In every reachable state the summary is at most 3072 bytes of well-formed UTF-8. */
  lemma {:induction false} RunsKeepSummaries(cfg: Config, l: Live, es: seq<Event>)
    requires Settled(l.v) && SoundSummaries(l.v.s)
    ensures SoundSummaries(Run(cfg, l, es).v.s)
    decreases |es|
  {
    if es == [] {
    } else {
      var before := Run(cfg, l, es[..|es| - 1]);
      RunsKeepSummaries(cfg, l, es[..|es| - 1]);
      RunsStaySettled(cfg, l, es[..|es| - 1]);
      EventKeepsSummaries(cfg, before.coord, before.v, es[|es| - 1]);
    }
  }

  /** So it is for a task from its seed on. */
  lemma SeededSummariesStaySound(cfg: Config, task: TaskState, walking: Option<Walking>, es: seq<Event>)
    requires task.plan == [] && task.currentIdx == 0 && task.interruptedBy.None? && Sound(task.accumulated)
    ensures var seed := SeedSnapshot(task, walking);
      SoundSummaries(Run(cfg, Live(View(seed.state, seed.nextStep), None), es).v.s)
  {
    var seed := SeedSnapshot(task, walking);
    SeedOnTrack(task, walking);
    RunsKeepSummaries(cfg, Live(View(seed.state, seed.nextStep), None), es);
  }
}

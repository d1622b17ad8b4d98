/** Terminal discipline: which steps end a task, and what never changes afterwards. */
module TerminalDiscipline {
  import opened State
  import opened Reducer
  import opened Store
  import opened NodeTypes
  import opened ReplanCoordinator
  import opened Runtime
  import opened Events
  import ExecutorNode
  import StrictReviewNode

  /** A terminal step comes with a terminal status; a budget pause never resumes there. */
  predicate Disciplined(v: View) {
    && (v.step == Terminal ==> v.s.status.IsTerminal())
    && (v.s.interrupt.Some? && v.s.interrupt.value.reason == "budget_exceeded" ==>
          v.s.interrupt.value.resumeStep != Terminal)
  }

  /** Which outputs reach the terminal step with a status of their own. */
  predicate EndsWithFailure(out: NodeOutput) {
    out.nextStep == Terminal && out.updates != [] && out.updates[0].status.Some? ==>
      out.updates[0].status.value == TaskFailed
  }

  predicate PausesForSubTask(out: NodeOutput) {
    out.updates != [] && out.updates[0].interrupt.Some? ==>
      out.updates[0].interrupt.value.reason == "subtask_failure_pause"
  }

  lemma HeldEnds(s: HermesState, res: ExecutorNode.RunResult, errText: Text, now: int)
    requires InRange(s)
    ensures EndsWithFailure(ExecutorNode.HandOff(s, res)) && PausesForSubTask(ExecutorNode.HandOff(s, res))
    ensures EndsWithFailure(ExecutorNode.Pause(s, res, errText, now))
    ensures PausesForSubTask(ExecutorNode.Pause(s, res, errText, now))
  {
  }

  lemma FinishEnds(cfg: Config, s: HermesState, res: ExecutorNode.RunResult, status: SubTaskStatus, text: Text,
                   reason: string)
    requires InRange(s)
    ensures EndsWithFailure(ExecutorNode.Finish(cfg, s, res, status, text, reason))
    ensures PausesForSubTask(ExecutorNode.Finish(cfg, s, res, status, text, reason))
  {
  }

  lemma ExecutorEnds(cfg: Config, s: HermesState, a: ExecutorNode.RunAnswer, now: int)
    requires ExecutorNode.Handle(cfg, s, a, now).Ok?
    ensures EndsWithFailure(ExecutorNode.Handle(cfg, s, a, now).value)
    ensures PausesForSubTask(ExecutorNode.Handle(cfg, s, a, now).value)
  {
    if !AlreadyDone(s.plan[s.currentIdx]) {
      var errText := if a.err.Some? then a.err.value else [];
      HeldEnds(s, a.res, errText, now);
      FinishEnds(cfg, s, a.res, SubFailed, errText, "subtask_failed");
      FinishEnds(cfg, s, a.res, SubDone, a.res.text, "subtask_done");
    }
  }

  lemma StrictReviewEnds(cfg: Config, s: HermesState, a: Option<StrictReviewNode.ReviewResult>)
    requires StrictReviewNode.Handle(cfg, s, a).Ok?
    ensures EndsWithFailure(StrictReviewNode.Handle(cfg, s, a).value)
    ensures PausesForSubTask(StrictReviewNode.Handle(cfg, s, a).value)
  {
  }

  lemma DispatchEnds(cfg: Config, c: Coordinator, v: View, t: Tick)
    requires Registered(v.step) && Dispatch(cfg, c, v.s, v.step, t).0.Ok?
    ensures EndsWithFailure(Dispatch(cfg, c, v.s, v.step, t).0.value)
    ensures PausesForSubTask(Dispatch(cfg, c, v.s, v.step, t).0.value)
  {
    if v.step == Executor {
      ExecutorEnds(cfg, v.s, t.run, t.now);
    } else if v.step == StrictReview {
      StrictReviewEnds(cfg, v.s, t.strict);
    }
  }

  lemma OutputKeepsDiscipline(v: View, out: NodeOutput)
    requires Disciplined(v) && EndsWithFailure(out) && PausesForSubTask(out)
    ensures Disciplined(View(Effect(v.s, NodeWrite(v.s, out)), out.nextStep))
  {
  }

  lemma PanicEnds(cfg: Config, c: Coordinator, v: View, e: Event)
    ensures var cause := CauseOf(cfg, c, v, e);
      cause.Ending? ==> cause.write.status.Some? || v.s.status.IsTerminal()
  {
  }

  lemma ResolutionKeepsDiscipline(v: View, d: Choice, now: int)
    requires Disciplined(v) && d != Abort && Resolution(v.s, d, now).Ok?
    ensures var v' := Consequence(v, Resolved(Resolution(v.s, d, now).value));
      Disciplined(v') && v'.s.status == v.s.status && v'.step != Terminal
  {
  }

  lemma InterruptKeepsDiscipline(v: View, i: Interrupt)
    requires Disciplined(v) && (i.reason == "budget_exceeded" ==> i.resumeStep != Terminal)
    ensures var v' := Consequence(v, Interrupting(i));
      Disciplined(v') && v'.s.status == v.s.status && v'.step == v.step
  {
  }

  lemma EndingKeepsDiscipline(v: View, w: StateUpdate)
    requires Disciplined(v) && EndingWrite(w) && (w.status.Some? || v.s.status.IsTerminal())
    ensures var v' := Consequence(v, Ending(w));
      Disciplined(v') && (v.s.status.IsTerminal() ==> v'.s.status == v.s.status)
      && (v.step == Terminal ==> v'.step == Terminal)
  {
  }

  /** One event keeps the discipline, and a terminal status is final. */
  lemma EventKeepsDiscipline(cfg: Config, c: Coordinator, v: View, e: Event)
    requires Disciplined(v)
    ensures var v' := After(cfg, c, v, e);
      Disciplined(v') && (v.s.status.IsTerminal() ==> v'.s.status == v.s.status)
  {
    CauseExplains(cfg, c, v, e);
    CauseFacts(cfg, c, v, e);
    match CauseOf(cfg, c, v, e)
    case Dispatched(out) =>
      DispatchEnds(cfg, c, v, e.tick);
      OutputKeepsDiscipline(v, out);
    case Ending(w) =>
      PanicEnds(cfg, c, v, e);
      EndingKeepsDiscipline(v, w);
    case Interrupting(i) =>
      InterruptingFacts(cfg, c, v, e);
      InterruptKeepsDiscipline(v, i);
    case Resolved(_) => ResolutionKeepsDiscipline(v, e.decision, e.now);
    case Nothing =>
  }

  lemma {:induction false} RunsKeepDiscipline(cfg: Config, l: Live, es: seq<Event>)
    requires Disciplined(l.v)
    ensures var l' := Run(cfg, l, es);
      Disciplined(l'.v) && (l.v.s.status.IsTerminal() ==> l'.v.s.status == l.v.s.status)
    decreases |es|
  {
    if es == [] {
    } else {
      var before := Run(cfg, l, es[..|es| - 1]);
      RunsKeepDiscipline(cfg, l, es[..|es| - 1]);
      EventKeepsDiscipline(cfg, before.coord, before.v, es[|es| - 1]);
    }
  }

  /** At the reducer already: no batch of writes moves a task out of a terminal status. */
  lemma {:induction false} AbsorbKeepsStatus(s: HermesState, us: seq<StateUpdate>)
    ensures AbsorbAll(s, us).next.status == s.status
    decreases |us|
  {
    if us == [] {
    } else {
      AbsorbKeepsStatus(s, us[..|us| - 1]);
    }
  }

  lemma TerminalStatusIsFinal(s: HermesState, us: seq<StateUpdate>)
    requires s.status.IsTerminal() && Reduced(s, us).Ok?
    ensures Reduced(s, us).value.status == s.status
  {
    AbsorbKeepsStatus(s, us);
  }

  /** A fresh run on a terminal snapshot returns at once and appends nothing, cancelled or not. */
  lemma TerminalRunAppendsNothing(cfg: Config, taskID: string, log: TaskLog, env: nat -> Tick, n: nat)
    requires log.history != [] && log.Last().nextStep == Terminal && n > 0
    ensures var r := RunFor(TurnsOf(cfg, taskID), taskID, Position(log, None, false, 0), env, n);
      r == (log, Stopped(if env(0).ctxErr.Some? then Some(Cancelled(env(0).ctxErr.value)) else None))
  {
  }

  /**
    The terminal step itself is not final: it is left exactly by a retry or a valid
    skip of an interrupt that is still pending there.
   */
  lemma TerminalStepLeftExactly(cfg: Config, c: Coordinator, v: View, e: Event)
    requires Disciplined(v) && v.step == Terminal
    ensures After(cfg, c, v, e).step != Terminal
       <==> e.Resolving? && e.decision != Abort && Resolution(v.s, e.decision, e.now).Ok?
  {
    CauseExplains(cfg, c, v, e);
    if e.Resolving? && e.decision != Abort && Resolution(v.s, e.decision, e.now).Ok? {
      ResolutionLeads(v.s, e.decision, e.now);
    }
  }

  /** A retry or a skip leads back to work, unless a budget stop was to resume at the end. */
  lemma ResolutionLeads(s: HermesState, d: Choice, now: int)
    requires d != Abort && Resolution(s, d, now).Ok?
    ensures var next := Resolution(s, d, now).value.nextStep;
      next == Executor || (d == Retry && s.interrupt.value.reason == "budget_exceeded"
                           && next == s.interrupt.value.resumeStep)
  {
  }

  lemma AbortEnds(cfg: Config, c: Coordinator, v: View, now: int)
    requires v.s.interrupt.Some? && ValidTransition(v.s.status, TaskFailed)
    ensures var aborted := After(cfg, c, v, Resolving(Abort, now));
      aborted.step == Terminal && aborted.s.status == TaskFailed && aborted.s.interrupt == v.s.interrupt
  {
    ResolvingExplains(cfg, c, v, Abort, now);
  }

  lemma RetryReopens(cfg: Config, c: Coordinator, v: View, now: int)
    requires v.s.interrupt.Some?
    requires v.s.interrupt.value.reason == "budget_exceeded" ==> v.s.interrupt.value.resumeStep != Terminal
    ensures var retried := After(cfg, c, v, Resolving(Retry, now));
      retried.step != Terminal && retried.s.status == v.s.status && retried.s.interrupt.None?
  {
    ResolvingExplains(cfg, c, v, Retry, now);
  }

  /** An abort leaves the interrupt pending, so a later retry sends the failed task back to work. */
  lemma AbortThenRetryReopens(cfg: Config, c: Coordinator, v: View, now: int, later: int)
    requires Disciplined(v) && v.s.interrupt.Some? && ValidTransition(v.s.status, TaskFailed)
    ensures var aborted := After(cfg, c, v, Resolving(Abort, now));
      var retried := After(cfg, c, aborted, Resolving(Retry, later));
      && aborted.step == Terminal && aborted.s.status == TaskFailed && aborted.s.interrupt == v.s.interrupt
      && retried.step != Terminal && retried.s.status == TaskFailed && retried.s.interrupt.None?
  {
    AbortEnds(cfg, c, v, now);
    RetryReopens(cfg, c, After(cfg, c, v, Resolving(Abort, now)), later);
  }

  /**
    The task reviewer's three ends: a replan needs the verdict "block"; on "fail" the
    task fails at once, even when the recovery layer asked for a retry.
   */
  lemma ReviewOutcome(cfg: Config, c: Coordinator, s: HermesState, t: Tick)
    ensures var (r, c') := Dispatch(cfg, c, s, Reviewer, t);
      && r.Ok?
      && (r.value.nextStep == ReplanSetup <==>
            (t.review.Some? && t.review.value.verdict == "block" && WantsReplan(cfg, c, t.review.value)))
      && (t.review.Some? && t.review.value.verdict == "fail" ==>
            r.value.nextStep == Terminal && NodeWrite(s, r.value).status == Some(TaskFailed))
  {
  }
}

/** The two usage ledgers tell the same story, and the budget is charged what they record. */
module LedgerBalance {
  import opened State
  import opened Ledger
  import opened NodeTypes
  import opened ReplanCoordinator
  import opened Runtime
  import opened Events
  import ExecutorNode
  import StrictReviewNode
  import PlannerNode

  function IsModel(m: string): string -> bool {
    (k: string) => k == m
  }

  function OfModel(m: string): PhaseKey -> bool {
    (k: PhaseKey) => k.model == m
  }

  /** Per model, the phases add up to the model's row, in every counter. */
  ghost predicate Balanced(s: HermesState) {
    forall m :: Total(s.modelUsages, IsModel(m)) == Total(s.phaseUsages, OfModel(m))
  }

  /** A write that books each call once per ledger. */
  predicate Paired(w: StateUpdate) {
    || (w.modelUsages == [] && w.phaseUsages == [])
    || (|w.modelUsages| == 1 && |w.phaseUsages| == 1
        && w.phaseUsages[0].key.model == w.modelUsages[0].key
        && w.phaseUsages[0].counters == w.modelUsages[0].counters)
  }

  /** The charge is the recorded volume. */
  predicate ChargesRecorded(w: StateUpdate) {
    w.tokenUsageDelta == Volume(w.modelUsages)
  }

  lemma PairedDeltas(w: StateUpdate, m: string)
    requires Paired(w)
    ensures DeltaTotal(w.modelUsages, IsModel(m)) == DeltaTotal(w.phaseUsages, OfModel(m))
  {
    if |w.modelUsages| == 1 {
      assert w.modelUsages[..0] == [] && w.phaseUsages[..0] == [];
    }
  }

  /** A paired write keeps the ledgers balanced. */
  lemma PairedKeeps(s: HermesState, w: StateUpdate)
    requires Balanced(s) && Paired(w)
    ensures Balanced(Effect(s, w))
  {
    forall m ensures Total(Effect(s, w).modelUsages, IsModel(m)) == Total(Effect(s, w).phaseUsages, OfModel(m)) {
      MergeConserves(s.modelUsages, w.modelUsages, IsModel(m));
      MergeConserves(s.phaseUsages, w.phaseUsages, OfModel(m));
      PairedDeltas(w, m);
    }
  }

  /** The one place where the charge can differ from what is recorded: a runner that reports no input total. */
  predicate HonestRunner(t: Tick) {
    t.run.res.ReportsInput()
  }

  lemma ChargePairs(u: StateUpdate, phase: string, model: string, c: Counters, tokens: int)
    requires u.modelUsages == [] && u.phaseUsages == [] && u.tokenUsageDelta == 0
    ensures var w := Charge(u, phase, model, c, tokens);
      Paired(w) && (tokens == c.input + c.output ==> ChargesRecorded(w))
      && (model != "" && tokens > 0 ==> (ChargesRecorded(w) <==> tokens == c.input + c.output))
  {
    assert [Usage(model, c)][..0] == [];
    assert Volume([Usage(model, c)]) == c.input + c.output;
  }

  predicate BooksFairly(out: NodeOutput, honest: bool) {
    forall i :: 0 <= i < |out.updates| ==>
      Paired(out.updates[i]) && (honest ==> ChargesRecorded(out.updates[i]))
  }

  lemma ExecutorCharge(u: StateUpdate, res: ExecutorNode.RunResult)
    requires u.modelUsages == [] && u.phaseUsages == [] && u.tokenUsageDelta == 0
    ensures Paired(ExecutorNode.Charged(u, res))
    ensures res.ReportsInput() ==> ChargesRecorded(ExecutorNode.Charged(u, res))
  {
    ChargePairs(u, "executor", res.model, res.Reported(), res.TokenVolume());
  }

  /** Exactly when a booked call is charged something else: its input total is zero and its components are not. */
  lemma ExecutorChargeExactly(res: ExecutorNode.RunResult)
    requires res.model != "" && res.TokenVolume() > 0
    ensures ChargesRecorded(ExecutorNode.Charged(NO_UPDATE, res)) <==> res.ReportsInput()
  {
    ChargePairs(NO_UPDATE, "executor", res.model, res.Reported(), res.TokenVolume());
  }

  lemma FinishBooks(cfg: Config, s: HermesState, res: ExecutorNode.RunResult, status: SubTaskStatus, text: Text,
                    reason: string)
    requires InRange(s)
    ensures BooksFairly(ExecutorNode.Finish(cfg, s, res, status, text, reason), res.ReportsInput())
  {
    forall u: StateUpdate | u.modelUsages == [] && u.phaseUsages == [] && u.tokenUsageDelta == 0
      ensures Paired(ExecutorNode.Charged(u, res))
      ensures res.ReportsInput() ==> ChargesRecorded(ExecutorNode.Charged(u, res))
    {
      ExecutorCharge(u, res);
    }
  }

  lemma HandOffBooks(s: HermesState, res: ExecutorNode.RunResult)
    requires InRange(s)
    ensures BooksFairly(ExecutorNode.HandOff(s, res), res.ReportsInput())
  {
    forall u: StateUpdate | u.modelUsages == [] && u.phaseUsages == [] && u.tokenUsageDelta == 0
      ensures Paired(ExecutorNode.Charged(u, res))
      ensures res.ReportsInput() ==> ChargesRecorded(ExecutorNode.Charged(u, res))
    {
      ExecutorCharge(u, res);
    }
  }

  lemma PauseBooks(s: HermesState, res: ExecutorNode.RunResult, errText: Text, now: int)
    requires InRange(s)
    ensures BooksFairly(ExecutorNode.Pause(s, res, errText, now), res.ReportsInput())
  {
    forall u: StateUpdate | u.modelUsages == [] && u.phaseUsages == [] && u.tokenUsageDelta == 0
      ensures Paired(ExecutorNode.Charged(u, res))
      ensures res.ReportsInput() ==> ChargesRecorded(ExecutorNode.Charged(u, res))
    {
      ExecutorCharge(u, res);
    }
  }

  lemma ExecutorBooks(cfg: Config, s: HermesState, a: ExecutorNode.RunAnswer, now: int)
    requires ExecutorNode.Handle(cfg, s, a, now).Ok?
    ensures BooksFairly(ExecutorNode.Handle(cfg, s, a, now).value, a.res.ReportsInput())
  {
    if !AlreadyDone(s.plan[s.currentIdx]) {
      HandOffBooks(s, a.res);
      if a.err.Some? {
        PauseBooks(s, a.res, a.err.value, now);
        FinishBooks(cfg, s, a.res, SubFailed, a.err.value, "subtask_failed");
      } else {
        FinishBooks(cfg, s, a.res, SubDone, a.res.text, "subtask_done");
      }
    }
  }

  lemma StrictReviewBooks(cfg: Config, s: HermesState, a: Option<StrictReviewNode.ReviewResult>)
    requires StrictReviewNode.Handle(cfg, s, a).Ok?
    ensures BooksFairly(StrictReviewNode.Handle(cfg, s, a).value, true)
  {
    if a.Some? {
      forall u: StateUpdate | u.modelUsages == [] && u.phaseUsages == [] && u.tokenUsageDelta == 0
        ensures Paired(StrictReviewNode.Charged(u, a.value)) && ChargesRecorded(StrictReviewNode.Charged(u, a.value))
      {
        ChargePairs(u, "reviewer_strict", a.value.model,
                    PlainCounters(a.value.input, a.value.output, a.value.cost), a.value.input + a.value.output);
      }
    }
  }

  lemma PlannerBooks(cfg: Config, s: HermesState, a: PlannerNode.PlanAnswer)
    requires PlannerNode.Handle(cfg, s, a).Ok?
    ensures BooksFairly(PlannerNode.Handle(cfg, s, a).value, true)
  {
    var w := PlannerNode.Handle(cfg, s, a).value.updates[0];
    if w.modelUsages != [] {
      assert w.modelUsages[..0] == [];
      assert Volume(w.modelUsages) == a.input + a.output;
    }
  }

  lemma DispatchBooks(cfg: Config, c: Coordinator, v: View, t: Tick)
    requires Registered(v.step) && Dispatch(cfg, c, v.s, v.step, t).0.Ok?
    ensures BooksFairly(Dispatch(cfg, c, v.s, v.step, t).0.value, HonestRunner(t))
  {
    if v.step == Executor {
      ExecutorBooks(cfg, v.s, t.run, t.now);
    } else if v.step == StrictReview {
      StrictReviewBooks(cfg, v.s, t.strict);
    } else if v.step == Planner {
      PlannerBooks(cfg, v.s, t.plan);
    }
  }

  /** What was charged beyond what is on the books. */
  function Unbooked(s: HermesState): int {
    s.budget.usedTokens - Volume(s.modelUsages)
  }

  lemma WriteBooks(s: HermesState, w: StateUpdate)
    ensures ChargesRecorded(w) ==> Unbooked(Effect(s, w)) == Unbooked(s)
  {
    MergeConservesVolume(s.modelUsages, w.modelUsages);
  }

  /** One event keeps the ledgers balanced; with an honest runner it charges exactly what it books. */
  lemma EventKeepsBalance(cfg: Config, c: Coordinator, v: View, e: Event)
    requires Balanced(v.s)
    ensures var v' := After(cfg, c, v, e);
      Balanced(v'.s) && ((e.Turning? ==> HonestRunner(e.tick)) ==> Unbooked(v'.s) == Unbooked(v.s))
  {
    CauseIsWrite(cfg, c, v, e);
    var w := CauseWrite(v.s, CauseOf(cfg, c, v, e));
    CauseBooks(cfg, c, v, e);
    PairedKeeps(v.s, w);
    WriteBooks(v.s, w);
  }

  lemma CauseBooks(cfg: Config, c: Coordinator, v: View, e: Event)
    ensures var w := CauseWrite(v.s, CauseOf(cfg, c, v, e));
      Paired(w) && ((e.Turning? ==> HonestRunner(e.tick)) ==> ChargesRecorded(w))
  {
    CauseFacts(cfg, c, v, e);
    var cause := CauseOf(cfg, c, v, e);
    if cause.Dispatched? {
      DispatchBooks(cfg, c, v, e.tick);
    }
  }

  lemma {:induction false} RunsKeepBalance(cfg: Config, l: Live, es: seq<Event>)
    requires Balanced(l.v.s)
    ensures Balanced(Run(cfg, l, es).v.s)
    ensures (forall i :: 0 <= i < |es| && es[i].Turning? ==> HonestRunner(es[i].tick)) ==>
      Unbooked(Run(cfg, l, es).v.s) == Unbooked(l.v.s)
    decreases |es|
  {
    if es == [] {
    } else {
      var before := Run(cfg, l, es[..|es| - 1]);
      RunsKeepBalance(cfg, l, es[..|es| - 1]);
      EventKeepsBalance(cfg, before.coord, before.v, es[|es| - 1]);
    }
  }
}

/** The budget can be overshot by one dispatch at most. */
module BudgetBound {
  import opened State
  import opened NodeTypes
  import opened ReplanCoordinator
  import opened Runtime
  import opened Events
  import ExecutorNode
  import StrictReviewNode

  /** No answer of the turn costs more than d tokens. */
  predicate CostsAtMost(t: Tick, d: nat) {
    && t.run.res.TokenVolume() <= d
    && (t.strict.Some? ==> t.strict.value.input + t.strict.value.output <= d)
    && (t.plan.Planned? ==> t.plan.input + t.plan.output <= d)
  }

  predicate WritesAtMost(out: NodeOutput, d: nat) {
    forall i :: 0 <= i < |out.updates| ==> out.updates[i].tokenUsageDelta <= d
  }

  lemma ExecutorCosts(cfg: Config, s: HermesState, a: ExecutorNode.RunAnswer, now: int, d: nat)
    requires a.res.TokenVolume() <= d && ExecutorNode.Handle(cfg, s, a, now).Ok?
    ensures WritesAtMost(ExecutorNode.Handle(cfg, s, a, now).value, d)
  {
  }

  lemma StrictReviewCosts(cfg: Config, s: HermesState, a: Option<StrictReviewNode.ReviewResult>, d: nat)
    requires (a.Some? ==> a.value.input + a.value.output <= d) && StrictReviewNode.Handle(cfg, s, a).Ok?
    ensures WritesAtMost(StrictReviewNode.Handle(cfg, s, a).value, d)
  {
  }

  lemma DispatchCosts(cfg: Config, c: Coordinator, v: View, t: Tick, d: nat)
    requires Registered(v.step) && CostsAtMost(t, d) && Dispatch(cfg, c, v.s, v.step, t).0.Ok?
    ensures WritesAtMost(Dispatch(cfg, c, v.s, v.step, t).0.value, d)
  {
    if v.step == Executor {
      ExecutorCosts(cfg, v.s, t.run, t.now, d);
    } else if v.step == StrictReview {
      StrictReviewCosts(cfg, v.s, t.strict, d);
    }
  }

  function Larger(a: int, b: int): int {
    if a > b then a else b
  }

  lemma WriteCosts(s: HermesState, w: StateUpdate, d: nat)
    requires w.tokenUsageDelta <= d
    ensures var b := Effect(s, w).budget;
      b.maxTotalTokens == s.budget.maxTotalTokens && b.usedTokens <= s.budget.usedTokens + d
      && (w.tokenUsageDelta == 0 ==> b.usedTokens == s.budget.usedTokens)
  {
  }

  lemma CauseCosts(cfg: Config, c: Coordinator, v: View, e: Event, d: nat)
    requires e.Turning? ==> CostsAtMost(e.tick, d)
    ensures var cause := CauseOf(cfg, c, v, e);
      var w := CauseWrite(v.s, cause);
      && w.tokenUsageDelta <= d
      && (w.tokenUsageDelta != 0 ==> e.Turning? && !v.s.budget.Exceeded(e.tick.now))
  {
    CauseFacts(cfg, c, v, e);
    if CauseOf(cfg, c, v, e).Dispatched? {
      DispatchCosts(cfg, c, v, e.tick, d);
    }
  }

  /** No node is dispatched over budget, and on an interrupted task only the approval node is. */
  lemma DispatchIsGated(cfg: Config, c: Coordinator, v: View, e: Event)
    requires CauseOf(cfg, c, v, e).Dispatched?
    ensures e.Turning? && !v.s.budget.Exceeded(e.tick.now)
    ensures v.s.interrupt.Some? ==> v.step == Approval
  {
    CauseFacts(cfg, c, v, e);
  }

  /** One event: the cap is fixed, and usage stays under it plus one dispatch, or does not grow. */
  lemma EventBudget(cfg: Config, c: Coordinator, v: View, e: Event, d: nat)
    requires v.s.budget.maxTotalTokens > 0 && (e.Turning? ==> CostsAtMost(e.tick, d))
    ensures var b := After(cfg, c, v, e).s.budget;
      && b.maxTotalTokens == v.s.budget.maxTotalTokens
      && b.usedTokens <= Larger(v.s.budget.usedTokens, v.s.budget.maxTotalTokens - 1 + d)
  {
    CauseIsWrite(cfg, c, v, e);
    CauseCosts(cfg, c, v, e, d);
    WriteCosts(v.s, CauseWrite(v.s, CauseOf(cfg, c, v, e)), d);
  }

  /** Over every run: no state exceeds the cap by more than one dispatch, unless it started there. */
  lemma {:induction false} OvershootBounded(cfg: Config, l: Live, es: seq<Event>, d: nat)
    requires l.v.s.budget.maxTotalTokens > 0
    requires forall i :: 0 <= i < |es| && es[i].Turning? ==> CostsAtMost(es[i].tick, d)
    ensures var b := Run(cfg, l, es).v.s.budget;
      && b.maxTotalTokens == l.v.s.budget.maxTotalTokens
      && b.usedTokens <= Larger(l.v.s.budget.usedTokens, l.v.s.budget.maxTotalTokens - 1 + d)
    decreases |es|
  {
    if es == [] {
    } else {
      var before := Run(cfg, l, es[..|es| - 1]);
      OvershootBounded(cfg, l, es[..|es| - 1], d);
      EventBudget(cfg, before.coord, before.v, es[|es| - 1], d);
    }
  }
}

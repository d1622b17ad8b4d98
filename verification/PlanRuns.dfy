/** Finished work: never rewritten, never re-run, and carried across partial replans. */
module FinishedWork {
  import opened State
  import opened NodeTypes
  import opened ReplanCoordinator
  import opened PartialRetry
  import opened Runtime
  import opened Events
  import opened PlanProgress
  import PlannerNode
  import ReplanSetupNode
  import RunFrames
  import Strings

  /** The turn that adopts a new plan. */
  predicate PlannerTurn(v: View, e: Event) {
    e.Turning? && v.step == Planner
  }

  /** Dispatched at an entry that is already done, a node leaves the plan alone. */
  lemma DoneDispatchLeavesPlan(cfg: Config, c: Coordinator, v: View, t: Tick)
    requires Settled(v) && Gate(v.s, v.step, t.now).None? && v.step != Planner
    requires InRange(v.s) && AlreadyDone(v.s.plan[v.s.currentIdx])
    ensures var r := Dispatch(cfg, c, v.s, v.step, t).0;
      r.Ok? ==> NodeWrite(v.s, r.value).plan.None?
  {
  }

  lemma DoneEntryKept(cfg: Config, c: Coordinator, v: View, e: Event)
    requires Settled(v) && !PlannerTurn(v, e)
    requires InRange(v.s) && AlreadyDone(v.s.plan[v.s.currentIdx])
    ensures CauseWrite(v.s, CauseOf(cfg, c, v, e)).plan.None?
  {
    CauseFacts(cfg, c, v, e);
    if CauseOf(cfg, c, v, e).Dispatched? {
      DoneDispatchLeavesPlan(cfg, c, v, e.tick);
    }
  }

  /** Outside planner turns no event rewrites an entry that is done or skipped. */
  lemma EventKeepsDone(cfg: Config, c: Coordinator, v: View, e: Event)
    requires Settled(v) && !PlannerTurn(v, e)
    ensures var s' := After(cfg, c, v, e).s;
      |s'.plan| == |v.s.plan|
      && forall j :: 0 <= j < |v.s.plan| && AlreadyDone(v.s.plan[j]) ==> s'.plan[j] == v.s.plan[j]
  {
    EventKeeps(cfg, c, v, e);
    CauseIsWrite(cfg, c, v, e);
    if InRange(v.s) && AlreadyDone(v.s.plan[v.s.currentIdx]) {
      DoneEntryKept(cfg, c, v, e);
    }
  }

  /** A stretch of events between two planner turns. */
  predicate OneAttempt(cfg: Config, l: Live, es: seq<Event>)
    decreases |es|
  {
    es == []
    || (OneAttempt(cfg, l, es[..|es| - 1])
        && !PlannerTurn(Run(cfg, l, es[..|es| - 1]).v, es[|es| - 1]))
  }

  predicate AllDone(plan: seq<SubTask>) {
    forall i :: 0 <= i < |plan| ==> AlreadyDone(plan[i])
  }

  /** Within an attempt the plan keeps its length and the pointer never goes back. */
  lemma {:induction false} AttemptAdvances(cfg: Config, l: Live, es: seq<Event>)
    requires Settled(l.v) && OneAttempt(cfg, l, es)
    ensures var s := Run(cfg, l, es).v.s;
      |s.plan| == |l.v.s.plan| && l.v.s.currentIdx <= s.currentIdx <= |s.plan|
    decreases |es|
  {
    if es == [] {
    } else {
      var init := es[..|es| - 1];
      var before := Run(cfg, l, init);
      AttemptAdvances(cfg, l, init);
      RunsStaySettled(cfg, l, init);
      EventKeeps(cfg, before.coord, before.v, es[|es| - 1]);
    }
  }

  lemma {:induction false} AttemptKeepsPrefix(cfg: Config, l: Live, es: seq<Event>, preserved: seq<SubTask>)
    requires Settled(l.v) && OneAttempt(cfg, l, es)
    requires AllDone(preserved) && preserved <= l.v.s.plan
    ensures preserved <= Run(cfg, l, es).v.s.plan
    decreases |es|
  {
    if es == [] {
    } else {
      var init := es[..|es| - 1];
      var before := Run(cfg, l, init);
      AttemptKeepsPrefix(cfg, l, init, preserved);
      RunsStaySettled(cfg, l, init);
      EventKeepsDone(cfg, before.coord, before.v, es[|es| - 1]);
      var after := Run(cfg, l, es).v.s.plan;
      forall i | 0 <= i < |preserved| ensures after[i] == preserved[i] {
        assert before.v.s.plan[i] == preserved[i];
      }
    }
  }

  /** The turn calls the runner. */
  predicate CallsRunner(v: View, t: Tick) {
    && Gate(v.s, v.step, t.now).None? && v.step == Executor
    && InRange(v.s) && !AlreadyDone(v.s.plan[v.s.currentIdx])
  }

  /**
    Throughout an attempt the preserved prefix stays as it is, and the runner is never
    called on it, on an interrupted task, or over budget.
   */
  lemma PreservedThroughout(cfg: Config, l: Live, es: seq<Event>, preserved: seq<SubTask>, t: Tick)
    requires Settled(l.v) && OneAttempt(cfg, l, es)
    requires AllDone(preserved) && preserved <= l.v.s.plan
    ensures var v := Run(cfg, l, es).v;
      && preserved <= v.s.plan
      && (CallsRunner(v, t) ==> v.s.currentIdx >= |preserved| && v.s.interrupt.None? && !v.s.budget.Exceeded(t.now))
  {
    AttemptKeepsPrefix(cfg, l, es, preserved);
    var v := Run(cfg, l, es).v;
    assert forall i :: 0 <= i < |preserved| ==> v.s.plan[i] == preserved[i];
  }

  /** The decider's answer to a recorded review that leaves something to keep. */
  lemma DeciderKeeps(cfg: Config, r: Replanning, goal: string)
    requires Split(cfg, r.lastReview, r.lastPlan).preserved != []
    ensures var partial := Split(cfg, r.lastReview, r.lastPlan);
      ReplanSetupNode.Handle(DecideReplan(cfg, Some(r), goal).0)
        == NodeOutput([NO_UPDATE.(replan := Some(ReplanContext(goal, partial.accumulated, partial.preserved,
                                                               r.attempts + 1, "partial")))],
                      Planner, "replan_setup_partial", false)
  {
    var d := DecideReplan(cfg, Some(r), goal).0;
    assert d.trigger == "partial" && d.trigger[0] == 'p' && d.trigger[6] == 'l';
    TriggerIsNoNoop(d);
  }

  lemma TriggerIsNoNoop(d: ReplanCoordinator.Decision)
    requires d.trigger != [] && !Strings.IsSpace(d.trigger[0]) && !Strings.IsSpace(d.trigger[|d.trigger| - 1])
    ensures !ReplanSetupNode.IsNoop(d)
  {
    Strings.TrimSpaceId(d.trigger);
  }

  /** The replan setup records the split of the rejected plan. */
  lemma SetupInstalls(cfg: Config, v: View, r: Replanning, t: Tick)
    requires v.step == ReplanSetup && Gate(v.s, v.step, t.now).None? && t.panic.None?
    requires Split(cfg, r.lastReview, r.lastPlan).preserved != []
    ensures var v' := After(cfg, Some(r), v, Turning(t));
      var partial := Split(cfg, r.lastReview, r.lastPlan);
      && v'.step == Planner && v'.s.interrupt == v.s.interrupt
      && v'.s.replan == Some(ReplanContext(t.replanGoal, partial.accumulated, partial.preserved,
                                           r.attempts + 1, "partial"))
  {
    DeciderKeeps(cfg, r, t.replanGoal);
    var out := ReplanSetupNode.Handle(DecideReplan(cfg, Some(r), t.replanGoal).0);
    assert TurnCause(cfg, Some(r), v, t) == Dispatched(out);
    TurnCauseExplains(cfg, Some(r), v, t);
  }

  lemma AdoptedEffect(cfg: Config, s: HermesState, a: PlannerNode.PlanAnswer)
    requires s.replan.Some? && s.replan.value.preserved != [] && PlannerNode.Handle(cfg, s, a).Ok?
    ensures var s' := Effect(s, NodeWrite(s, PlannerNode.Handle(cfg, s, a).value));
      && s'.plan == PlannerNode.Adopted(s, a.tasks) && s'.currentIdx == 0 && s'.replan.None?
      && s'.accumulated == s.replan.value.accumulated
  {
  }

  lemma AdoptedLeads(s: HermesState, tasks: PlannerNode.Tasks)
    requires s.replan.Some? && s.replan.value.preserved != []
    ensures s.replan.value.preserved <= PlannerNode.Adopted(s, tasks)
    ensures |PlannerNode.Adopted(s, tasks)| > |s.replan.value.preserved|
  {
  }

  /** The planner puts what was preserved in front of the new plan and starts from its transcript. */
  lemma PlannerAdopts(cfg: Config, c: Coordinator, v: View, t: Tick)
    requires v.step == Planner && v.s.replan.Some? && v.s.replan.value.preserved != []
    requires After(cfg, c, v, Turning(t)).step == Executor
    ensures var v' := After(cfg, c, v, Turning(t));
      && v.s.replan.value.preserved <= v'.s.plan && |v'.s.plan| > |v.s.replan.value.preserved|
      && v'.s.currentIdx == 0 && v'.s.replan.None? && v'.s.accumulated == v.s.replan.value.accumulated
  {
    TurnCauseExplains(cfg, c, v, t);
    TurnCauseFacts(cfg, c, v, t);
    assert TurnCause(cfg, c, v, t).Dispatched?;
    AdoptedEffect(cfg, v.s, t.plan);
    AdoptedLeads(v.s, t.plan.tasks);
  }

  /** No event of the stretch reaches the planner or the replan setup. */
  predicate Waits(cfg: Config, l: Live, es: seq<Event>)
    decreases |es|
  {
    es == []
    || (Waits(cfg, l, es[..|es| - 1])
        && var before := Run(cfg, l, es[..|es| - 1]);
           !(CauseOf(cfg, before.coord, before.v, es[|es| - 1]).Dispatched?
             && (before.v.step == Planner || before.v.step == ReplanSetup)))
  }

  /** Until then the pending replan stays as it was set up. */
  lemma {:induction false} ReplanStaysPending(cfg: Config, l: Live, es: seq<Event>)
    requires Waits(cfg, l, es)
    ensures Run(cfg, l, es).v.s.replan == l.v.s.replan
    decreases |es|
  {
    if es == [] {
    } else {
      var before := Run(cfg, l, es[..|es| - 1]);
      ReplanStaysPending(cfg, l, es[..|es| - 1]);
      RunFrames.UnplannedReplan(cfg, before.coord, before.v, es[|es| - 1]);
    }
  }

  /** The views of a replan: after the setup, when the planner is reached, and with the new plan adopted. */
  function SetUp(cfg: Config, v: View, r: Replanning, t: Tick): Live {
    Step(cfg, Live(v, Some(r)), Turning(t))
  }

  function Replanned(cfg: Config, v: View, r: Replanning, setup: Tick, es: seq<Event>, planner: Tick): Live {
    Step(cfg, Run(cfg, SetUp(cfg, v, r, setup), es), Turning(planner))
  }

  lemma FilterIsDone(cfg: Config, r: Replanning)
    requires Split(cfg, r.lastReview, r.lastPlan).preserved != []
    ensures AllDone(Filter(r.lastPlan, r.lastReview, cfg.scoreThreshold, true))
    ensures var partial := Split(cfg, r.lastReview, r.lastPlan);
      partial.preserved == Filter(r.lastPlan, r.lastReview, cfg.scoreThreshold, true)
      && partial.accumulated == Transcript(cfg, partial.preserved)
  {
  }

  /**
    A partial replan keeps finished work. Whatever comes between the replan setup and the
    planner's next committed turn, that turn puts exactly the well-scored, done sub-tasks,
    in order, at the front of the new plan.
   */
  lemma ReplanAdopts(cfg: Config, v: View, r: Replanning, setup: Tick, es: seq<Event>, planner: Tick)
    requires v.step == ReplanSetup && Gate(v.s, v.step, setup.now).None? && setup.panic.None?
    requires Split(cfg, r.lastReview, r.lastPlan).preserved != []
    requires Waits(cfg, SetUp(cfg, v, r, setup), es)
    requires Run(cfg, SetUp(cfg, v, r, setup), es).v.step == Planner
    requires Replanned(cfg, v, r, setup, es, planner).v.step == Executor
    ensures var kept, s := Filter(r.lastPlan, r.lastReview, cfg.scoreThreshold, true),
                           Replanned(cfg, v, r, setup, es, planner).v.s;
      kept <= s.plan && AllDone(kept) && s.currentIdx == 0 && s.accumulated == Transcript(cfg, kept)
  {
    SetupInstalls(cfg, v, r, setup);
    ReplanStaysPending(cfg, SetUp(cfg, v, r, setup), es);
    var before := Run(cfg, SetUp(cfg, v, r, setup), es);
    PlannerAdopts(cfg, before.coord, before.v, planner);
    FilterIsDone(cfg, r);
  }

  /**
    And throughout the attempt that this turn opens, they stay there and the runner is
    never called on them.
   */
  lemma ReplanKeepsFinished(cfg: Config, v: View, r: Replanning, setup: Tick, es: seq<Event>, planner: Tick,
                            rest: seq<Event>, t: Tick)
    requires Settled(v) && v.step == ReplanSetup && Gate(v.s, v.step, setup.now).None? && setup.panic.None?
    requires Split(cfg, r.lastReview, r.lastPlan).preserved != []
    requires Waits(cfg, SetUp(cfg, v, r, setup), es)
    requires Run(cfg, SetUp(cfg, v, r, setup), es).v.step == Planner
    requires Replanned(cfg, v, r, setup, es, planner).v.step == Executor
    requires OneAttempt(cfg, Replanned(cfg, v, r, setup, es, planner), rest)
    ensures var kept, now := Filter(r.lastPlan, r.lastReview, cfg.scoreThreshold, true),
                             Run(cfg, Replanned(cfg, v, r, setup, es, planner), rest).v;
      kept <= now.s.plan && (CallsRunner(now, t) ==> now.s.currentIdx >= |kept|)
  {
    ReplanAdopts(cfg, v, r, setup, es, planner);
    var started := SetUp(cfg, v, r, setup);
    EventKeeps(cfg, Some(r), v, Turning(setup));
    RunsStaySettled(cfg, started, es);
    var before := Run(cfg, started, es);
    EventKeeps(cfg, before.coord, before.v, Turning(planner));
    PreservedThroughout(cfg, Replanned(cfg, v, r, setup, es, planner), rest,
                        Filter(r.lastPlan, r.lastReview, cfg.scoreThreshold, true), t);
  }
}

/** The result list agrees with the plan on every sub-task finalised in the current attempt. */
module ResultsAgreement {
  import opened State
  import opened ResultMerge
  import opened NodeTypes
  import opened ReplanCoordinator
  import opened Runtime
  import opened Events
  import opened PlanProgress
  import opened FinishedWork
  import opened PlanMerge
  import ExecutorNode
  import StrictReviewNode

  predicate SameOutcome(r: SubTaskResult, sub: SubTask) {
    r.subTaskID == sub.id && r.status == sub.status && r.result == sub.result
    && r.tokensUsed == sub.tokensUsed && r.attempts == sub.attempts
  }

  /** The entry on record for a sub-task says what the plan says. */
  predicate Agrees(results: seq<SubTaskResult>, sub: SubTask) {
    var r := Find(results, ById(sub.id));
    r.Some? && SameOutcome(r.value, sub)
  }

  ghost predicate UniqueIDs(plan: seq<SubTask>) {
    DistinctIDs(plan) && forall i :: 0 <= i < |plan| ==> plan[i].id != ""
  }

  /** A set of finalised positions, all behind the pointer and all on record. */
  ghost predicate OnRecord(s: HermesState, done: set<nat>) {
    && DistinctResults(s.subTaskResults)
    && forall j :: j in done ==> j < s.currentIdx && j < |s.plan| && Agrees(s.subTaskResults, s.plan[j])
  }

  /** What a write does to the results: nothing, or exactly the entry it moves past. */
  predicate ReportsEntry(s: HermesState, w: StateUpdate) {
    w.subTaskResults != [] ==>
      && InRange(s) && w.plan.Some? && |w.plan.value| == |s.plan|
      && w.currentIdx == Some(s.currentIdx + 1)
      && w.subTaskResults == [ResultOf(w.plan.value[s.currentIdx], s.currentIdx)]
  }

  predicate KeepsIDs(s: HermesState, w: StateUpdate) {
    w.plan.Some? ==>
      |w.plan.value| == |s.plan| && forall j :: 0 <= j < |s.plan| ==> w.plan.value[j].id == s.plan[j].id
  }

  predicate GoodReport(s: HermesState, out: NodeOutput) {
    forall i :: 0 <= i < |out.updates| ==> ReportsEntry(s, out.updates[i]) && KeepsIDs(s, out.updates[i])
  }

  lemma FinishReports(cfg: Config, s: HermesState, res: ExecutorNode.RunResult, status: SubTaskStatus, text: Text,
                      reason: string)
    requires InRange(s)
    ensures GoodReport(s, ExecutorNode.Finish(cfg, s, res, status, text, reason))
  {
  }

  lemma HeldReports(s: HermesState, res: ExecutorNode.RunResult, errText: Text, now: int)
    requires InRange(s)
    ensures GoodReport(s, ExecutorNode.HandOff(s, res))
    ensures GoodReport(s, ExecutorNode.Pause(s, res, errText, now))
  {
  }

  lemma ExecutorReports(cfg: Config, s: HermesState, a: ExecutorNode.RunAnswer, now: int)
    requires ExecutorNode.Handle(cfg, s, a, now).Ok?
    ensures GoodReport(s, ExecutorNode.Handle(cfg, s, a, now).value)
  {
    if !AlreadyDone(s.plan[s.currentIdx]) {
      var errText := if a.err.Some? then a.err.value else [];
      HeldReports(s, a.res, errText, now);
      FinishReports(cfg, s, a.res, SubFailed, errText, "subtask_failed");
      FinishReports(cfg, s, a.res, SubDone, a.res.text, "subtask_done");
    }
  }

  lemma StrictReviewReports(cfg: Config, s: HermesState, a: Option<StrictReviewNode.ReviewResult>)
    requires StrictReviewNode.Handle(cfg, s, a).Ok?
    ensures GoodReport(s, StrictReviewNode.Handle(cfg, s, a).value)
  {
    var sub := s.plan[s.currentIdx];
    var u := StrictReviewNode.Handle(cfg, s, a).value.updates[0];
    if a.None? || (a.value.verdict != "block" && a.value.verdict != "fail") {
      EntryReports(s, sub.(status := SubDone, strictRetryFeedback := []), u);
    } else if a.value.verdict == "fail" {
      EntryReports(s, sub.(status := SubFailed, strictRetryFeedback := [],
                           result := if a.value.feedback != [] then a.value.feedback else sub.result), u);
    } else if sub.attempts >= cfg.maxRetriesPerSub {
      EntryReports(s, sub.(status := SubSkipped, strictRetryFeedback := [],
                           result := StrictReviewNode.PartialResult(sub.result, a.value.feedback)), u);
    }
  }

  /** A write that finalises the entry at the pointer reports it. */
  lemma EntryReports(s: HermesState, sub: SubTask, u: StateUpdate)
    requires InRange(s) && sub.id == s.plan[s.currentIdx].id
    requires u.plan == Some(s.plan[s.currentIdx := sub]) && u.currentIdx == Some(s.currentIdx + 1)
    requires u.subTaskResults == [ResultOf(sub, s.currentIdx)]
    ensures ReportsEntry(s, u) && KeepsIDs(s, u)
  {
  }

  lemma DispatchReports(cfg: Config, c: Coordinator, v: View, t: Tick)
    requires Registered(v.step) && v.step != Planner && Dispatch(cfg, c, v.s, v.step, t).0.Ok?
    ensures GoodReport(v.s, Dispatch(cfg, c, v.s, v.step, t).0.value)
  {
    if v.step == Executor {
      ExecutorReports(cfg, v.s, t.run, t.now);
    } else if v.step == StrictReview {
      StrictReviewReports(cfg, v.s, t.strict);
    }
  }

  lemma CauseReports(cfg: Config, c: Coordinator, v: View, e: Event)
    requires !PlannerTurn(v, e)
    ensures var w := CauseWrite(v.s, CauseOf(cfg, c, v, e));
      ReportsEntry(v.s, w) && KeepsIDs(v.s, w)
  {
    CauseFacts(cfg, c, v, e);
    if CauseOf(cfg, c, v, e).Dispatched? {
      DispatchReports(cfg, c, v, e.tick);
    }
  }

  /** The position an event finalises, if any. */
  function Finalises(cfg: Config, c: Coordinator, v: View, e: Event): set<nat> {
    var w := CauseWrite(v.s, CauseOf(cfg, c, v, e));
    if w.subTaskResults != [] && After(cfg, c, v, e).s == Effect(v.s, w) && v.s.currentIdx >= 0
    then {v.s.currentIdx as nat} else {}
  }

  lemma ReportLands(results: seq<SubTaskResult>, sub: SubTask, idx: int)
    requires sub.id != "" && DistinctResults(results)
    ensures var merged := MergedResults(results, [ResultOf(sub, idx)]);
      Agrees(merged, sub) && DistinctResults(merged)
  {
    FindOne(ResultOf(sub, idx), ById(sub.id));
    MergeLookup(results, [ResultOf(sub, idx)], ById(sub.id));
    MergeDistinct(results, [ResultOf(sub, idx)]);
  }

  lemma ReportLeavesOthers(results: seq<SubTaskResult>, sub: SubTask, idx: int, other: SubTask)
    requires sub.id != "" && sub.id != other.id && Agrees(results, other)
    ensures Agrees(MergedResults(results, [ResultOf(sub, idx)]), other)
  {
    FindOne(ResultOf(sub, idx), ById(other.id));
    MergeLookup(results, [ResultOf(sub, idx)], ById(other.id));
  }

  /** A write that reports its entry keeps the record, and adds the entry to it. */
  lemma WriteKeepsIDs(s: HermesState, w: StateUpdate)
    requires UniqueIDs(s.plan) && KeepsIDs(s, w)
    ensures UniqueIDs(Effect(s, w).plan)
    ensures |Effect(s, w).plan| == |s.plan|
    ensures forall j :: 0 <= j < |s.plan| ==> Effect(s, w).plan[j].id == s.plan[j].id
  {
  }

  /** A report on the entry that is passed: it joins those on record, which stay as they are. */
  lemma ReportRecords(s: HermesState, s': HermesState, sub: SubTask, done: set<nat>)
    requires OnRecord(s, done) && UniqueIDs(s.plan) && OneEntry(s, s') && InRange(s)
    requires s'.currentIdx == s.currentIdx + 1 && sub == s'.plan[s.currentIdx] && sub.id == s.plan[s.currentIdx].id
    requires s'.subTaskResults == MergedResults(s.subTaskResults, [ResultOf(sub, s.currentIdx)])
    ensures OnRecord(s', done + {s.currentIdx as nat})
  {
    ReportLands(s.subTaskResults, sub, s.currentIdx);
    forall j | j in done ensures Agrees(s'.subTaskResults, s'.plan[j]) {
      ReportLeavesOthers(s.subTaskResults, sub, s.currentIdx, s.plan[j]);
    }
  }

  lemma WriteRecords(s: HermesState, w: StateUpdate, done: set<nat>)
    requires OnRecord(s, done) && UniqueIDs(s.plan) && ReportsEntry(s, w) && KeepsIDs(s, w)
    requires OneEntry(s, Effect(s, w))
    ensures UniqueIDs(Effect(s, w).plan)
    ensures OnRecord(Effect(s, w), done)
    ensures w.subTaskResults != [] ==> OnRecord(Effect(s, w), done + {s.currentIdx as nat})
  {
    var s' := Effect(s, w);
    WriteKeepsIDs(s, w);
    if w.subTaskResults != [] {
      var sub := s'.plan[s.currentIdx];
      assert s'.subTaskResults == ResultMerge.MergedResults(s.subTaskResults, [ResultOf(sub, s.currentIdx)]);
      ReportRecords(s, s', sub, done);
    } else {
      assert s'.subTaskResults == s.subTaskResults;
    }
  }

  lemma EventRecords(cfg: Config, c: Coordinator, v: View, e: Event, done: set<nat>)
    requires Settled(v) && !PlannerTurn(v, e)
    requires OnRecord(v.s, done) && UniqueIDs(v.s.plan)
    ensures var s' := After(cfg, c, v, e).s;
      UniqueIDs(s'.plan) && OnRecord(s', done + Finalises(cfg, c, v, e))
  {
    var w := CauseWrite(v.s, CauseOf(cfg, c, v, e));
    CauseIsWrite(cfg, c, v, e);
    CauseReports(cfg, c, v, e);
    EventKeeps(cfg, c, v, e);
    if After(cfg, c, v, e).s == Effect(v.s, w) {
      WriteRecords(v.s, w, done);
    }
  }

  /** The positions finalised in a stretch of events. */
  function Finalised(cfg: Config, l: Live, es: seq<Event>): set<nat>
    decreases |es|
  {
    if es == [] then {}
    else
      var before := Run(cfg, l, es[..|es| - 1]);
      Finalised(cfg, l, es[..|es| - 1]) + Finalises(cfg, before.coord, before.v, es[|es| - 1])
  }

  /**
    Until the next planner turn, every sub-task the executor or the strict reviewer
    finalised has exactly one entry under its id, with the plan's outcome.
   */
  lemma {:induction false} AttemptStaysOnRecord(cfg: Config, l: Live, es: seq<Event>)
    requires Settled(l.v) && OneAttempt(cfg, l, es)
    requires UniqueIDs(l.v.s.plan) && DistinctResults(l.v.s.subTaskResults)
    ensures UniqueIDs(Run(cfg, l, es).v.s.plan)
    ensures OnRecord(Run(cfg, l, es).v.s, Finalised(cfg, l, es))
    decreases |es|
  {
    if es == [] {
    } else {
      var init := es[..|es| - 1];
      var before := Run(cfg, l, init);
      AttemptStaysOnRecord(cfg, l, init);
      RunsStaySettled(cfg, l, init);
      EventRecords(cfg, before.coord, before.v, es[|es| - 1], Finalised(cfg, l, init));
    }
  }
}

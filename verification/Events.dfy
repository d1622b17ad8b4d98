/**
  Everything that can happen to a task, one durable boundary at a time: walker
  turns, cancellations, operator resolutions, orphan recovery and restarts. Every
  property of all runs is proved over sequences of these events.
 */
module Events {
  import opened State
  import opened Reducer
  import opened Collapse
  import opened Store
  import opened NodeTypes
  import opened ReplanCoordinator
  import opened Runtime
  import ResultMerge
  import ExecutorNode
  import StrictReviewNode
  import PlannerNode

  datatype Choice = Retry | Skip | Abort

  /** MarkTaskFailedDurable. */
  function FailCommit(reason: string): Commit {
    PlainCommit([NO_UPDATE.(status := Some(TaskFailed))], Terminal, Executor,
                if reason == "" then "startup_orphan_failed" else reason)
  }

  datatype ResolutionError =
    | NoPendingInterrupt
    | NoSubTaskIndex
    | SubTaskIndexOutOfRange(idx: int, size: nat)

  /** ApplyInterruptResolution: the commit that records the operator's choice. */
  function Resolution(s: HermesState, d: Choice, now: int): Result<Commit, ResolutionError> {
    if s.interrupt.None? then Err(NoPendingInterrupt)
    else
      var interrupt := s.interrupt.value;
      match d
      case Abort => Ok(FailCommit("user_abort_after_pause"))
      case Skip =>
        if interrupt.subTaskIdx.None? then Err(NoSubTaskIndex)
        else
          var idx := interrupt.subTaskIdx.value;
          if idx < 0 || idx >= |s.plan| then Err(SubTaskIndexOutOfRange(idx, |s.plan|))
          else
            Ok(PlainCommit([NO_UPDATE.(plan := Some(s.plan[idx := s.plan[idx].(status := SubSkipped)]),
                                       currentIdx := Some(idx + 1), clearInterrupt := true)],
                           Executor, Approval, "user_skip_after_pause"))
      case Retry =>
        if interrupt.reason == "budget_exceeded" then
          Ok(PlainCommit([NO_UPDATE.(clearInterrupt := true, budgetStartedAt := Some(now))],
                         if interrupt.resumeStep == NoStep then Executor else interrupt.resumeStep,
                         Approval, "user_continue_after_budget"))
        else
          Ok(PlainCommit([NO_UPDATE.(clearInterrupt := true)], Executor, Approval, "user_retry_after_pause"))
  }

  datatype Event =
    | Turning(tick: Tick)
    | Cancelling(why: string, now: int)
    | Resolving(decision: Choice, now: int)
    | Orphaned(reason: string)
    | Restarting

  /** The commit an event attempts on the latest snapshot, if any. */
  function Attempt(cfg: Config, c: Coordinator, s: HermesState, step: RuntimeStep, e: Event): Option<Commit> {
    match e
    case Turning(t) =>
      (match Decide(cfg, c, s, step, t)
       case Leave(_) => None
       case Record(commit, _) => Some(commit)
       case Advance(commit, _, _) => Some(commit))
    case Cancelling(why, now) => Some(CancelCommit(step, why, now))
    case Resolving(d, now) => (var r := Resolution(s, d, now); if r.Ok? then Some(r.value) else None)
    case Orphaned(reason) => Some(FailCommit(reason))
    case Restarting => None
  }

  function CoordinatorAfter(cfg: Config, c: Coordinator, s: HermesState, step: RuntimeStep, e: Event): Coordinator {
    match e
    case Turning(t) => (match Decide(cfg, c, s, step, t) case Advance(_, c', _) => c' case _ => c)
    case Restarting => None
    case _ => c
  }

  datatype Machine = Machine(log: TaskLog, coord: Coordinator)

  function Happen(cfg: Config, taskID: string, m: Machine, e: Event): Machine
    requires m.log.history != []
  {
    var s, step := m.log.Last().state, m.log.Last().nextStep;
    var commit := Attempt(cfg, m.coord, s, step, e);
    Machine(if commit.Some? then CommittedOr(taskID, m.log, commit.value) else m.log,
            CoordinatorAfter(cfg, m.coord, s, step, e))
  }

  function HappenAll(cfg: Config, taskID: string, m: Machine, es: seq<Event>): (m': Machine)
    requires m.log.history != []
    ensures m'.log.history != []
    decreases |es|
  {
    if es == [] then m
    else Happen(cfg, taskID, HappenAll(cfg, taskID, m, es[..|es| - 1]), es[|es| - 1])
  }

  // ---------- One event, seen on the state ----------

  /** The state after a single write. */
  function Effect(s: HermesState, w: StateUpdate): HermesState {
    var results :=
      if w.subTaskResults != [] then ResultMerge.MergedResults(s.subTaskResults, w.subTaskResults)
      else s.subTaskResults;
    MergeFields(s, w).(
      status := if w.status.Some? then w.status.value else s.status,
      currentIdx := if w.currentIdx.Some? then w.currentIdx.value else s.currentIdx,
      plan := if w.plan.Some? && w.plan.value != [] then w.plan.value else s.plan,
      subTaskResults := results,
      githubIssue := if w.githubIssue.Some? then w.githubIssue.value else s.githubIssue)
  }

  predicate Accepts(s: HermesState, w: StateUpdate) {
    w.status.Some? ==> ValidTransition(s.status, w.status.value)
  }

  lemma ReducedSingle(s: HermesState, w: StateUpdate)
    ensures Accepts(s, w) ==> Reduced(s, [w]) == Ok(Effect(s, w))
    ensures !Accepts(s, w) ==> Reduced(s, [w]).Err?
  {
    AbsorbSingleton(s, w);
    assert [] + w.subTaskResults == w.subTaskResults;
    var next := MergeFields(s, w);
    assert next.status == s.status && next.plan == s.plan && next.subTaskResults == s.subTaskResults;
    assert Absorb(Start(s), w)
      == Batch(next, w.status, w.currentIdx, if w.plan.Some? then CopyPlan(w.plan.value) else None, w.githubIssue,
               w.subTaskResults);
  }

  lemma AbsorbStatus(p: Batch, status: TaskStatus)
    ensures Absorb(p, NO_UPDATE.(status := Some(status))) == p.(status := Some(status))
  {
    assert p.next.artifacts + [] == p.next.artifacts;
    assert p.next.errors + [] == p.next.errors;
    assert p.results + [] == p.results;
  }

  /** A write followed by a status write is the write with that status. */
  lemma ReducedPair(s: HermesState, u: StateUpdate, status: TaskStatus)
    requires u.status.None?
    ensures Reduced(s, [u, NO_UPDATE.(status := Some(status))]) == Reduced(s, [u.(status := Some(status))])
  {
    var d := NO_UPDATE.(status := Some(status));
    assert [u, d][..1] == [u] && [u, d][1] == d;
    assert AbsorbAll(s, [u, d]) == Absorb(AbsorbAll(s, [u]), d);
    AbsorbSingleton(s, u);
    AbsorbStatus(Absorb(Start(s), u), status);
    AbsorbSingleton(s, u.(status := Some(status)));
    assert MergeFields(s, u.(status := Some(status))) == MergeFields(s, u);
  }

  lemma ReducedNothing(s: HermesState)
    ensures Effect(s, NO_UPDATE) == s && Reduced(s, []) == Ok(s)
  {
    assert s.artifacts + [] == s.artifacts && s.errors + [] == s.errors;
  }

  /** The single write an attempted commit amounts to. */
  function Write(commit: Commit): StateUpdate {
    if commit.updates == [] then NO_UPDATE
    else if |commit.updates| == 1 then commit.updates[0]
    else commit.updates[0].(status := commit.updates[1].status)
  }

  /** Every commit of the runtime is one write, possibly followed by a status write. */
  predicate Plain(commit: Commit) {
    && DefaultIDs(commit)
    && |commit.updates| <= 2
    && (forall i :: 0 <= i < |commit.updates| ==> commit.updates[i].accumulatedDelta == [])
    && (|commit.updates| == 2 ==>
          commit.updates[0].status.None? && commit.updates[1].status.Some?
          && commit.updates[1] == NO_UPDATE.(status := commit.updates[1].status))
  }

  predicate PlainOutput(out: NodeOutput) {
    |out.updates| <= 1 && (out.updates != [] ==> out.updates[0].accumulatedDelta == [])
  }

  lemma ExecutorIsPlain(cfg: Config, s: HermesState, a: ExecutorNode.RunAnswer, now: int)
    ensures var r := ExecutorNode.Handle(cfg, s, a, now);
      r.Ok? ==> PlainOutput(r.value)
  {
  }

  lemma StrictReviewIsPlain(cfg: Config, s: HermesState, a: Option<StrictReviewNode.ReviewResult>)
    ensures var r := StrictReviewNode.Handle(cfg, s, a);
      r.Ok? ==> PlainOutput(r.value)
  {
  }

  lemma PlannerIsPlain(cfg: Config, s: HermesState, a: PlannerNode.PlanAnswer)
    ensures var r := PlannerNode.Handle(cfg, s, a);
      r.Ok? ==> PlainOutput(r.value)
  {
  }

  lemma DispatchIsPlain(cfg: Config, c: Coordinator, s: HermesState, step: RuntimeStep, t: Tick)
    requires Registered(step)
    ensures var r := Dispatch(cfg, c, s, step, t).0;
      r.Ok? ==> PlainOutput(r.value)
  {
    match step
    case Executor => ExecutorIsPlain(cfg, s, t.run, t.now);
    case StrictReview => StrictReviewIsPlain(cfg, s, t.strict);
    case Planner => PlannerIsPlain(cfg, s, t.plan);
    case _ =>
  }

  lemma NodeCommitIsPlain(s: HermesState, step: RuntimeStep, out: NodeOutput)
    requires PlainOutput(out)
    ensures Plain(NodeCommit(s, step, out))
  {
    if out.updates != [] && out.updates[0].status.Some? {
      assert SetsStatus(out.updates);
    }
  }

  /** The single write a node's output amounts to. */
  function NodeWrite(s: HermesState, out: NodeOutput): StateUpdate {
    var u := if out.updates == [] then NO_UPDATE else out.updates[0];
    if out.nextStep == Terminal && u.status.None? && !s.status.IsTerminal() then u.(status := Some(TaskDone)) else u
  }

  lemma NodeCommitWrites(s: HermesState, step: RuntimeStep, out: NodeOutput)
    requires PlainOutput(out)
    ensures Write(NodeCommit(s, step, out)) == NodeWrite(s, out)
  {
    if out.updates != [] && out.updates[0].status.Some? {
      assert SetsStatus(out.updates);
    }
  }

  /** A dispatched turn, as the output of its node. */
  lemma TurnIsOutput(cfg: Config, c: Coordinator, s: HermesState, step: RuntimeStep, t: Tick)
    requires Decide(cfg, c, s, step, t).Advance?
    ensures Registered(step) && Dispatch(cfg, c, s, step, t).0.Ok?
    ensures var a := Decide(cfg, c, s, step, t);
      var out := Dispatch(cfg, c, s, step, t).0.value;
      && Plain(a.commit) && Write(a.commit) == NodeWrite(s, out)
      && a.commit.nextStep == out.nextStep && a.halt == out.halt
      && a.coord == Dispatch(cfg, c, s, step, t).1
  {
    DispatchIsPlain(cfg, c, s, step, t);
    var out := Dispatch(cfg, c, s, step, t).0.value;
    NodeCommitIsPlain(s, step, out);
    NodeCommitWrites(s, step, out);
  }

  lemma TurnIsPlain(cfg: Config, c: Coordinator, s: HermesState, step: RuntimeStep, t: Tick)
    ensures match Decide(cfg, c, s, step, t)
      case Advance(commit, _, _) => Plain(commit)
      case Record(commit, _) => Plain(commit)
      case Leave(_) => true
  {
    if Decide(cfg, c, s, step, t).Advance? {
      TurnIsOutput(cfg, c, s, step, t);
    } else {
      RecordIsPlain(cfg, c, s, step, t);
    }
  }

  lemma RecordIsPlain(cfg: Config, c: Coordinator, s: HermesState, step: RuntimeStep, t: Tick)
    requires !Decide(cfg, c, s, step, t).Advance?
    ensures var a := Decide(cfg, c, s, step, t); a.Record? ==> Plain(a.commit)
  {
    PanicIsPlain(s, step, if t.panic.Some? then t.panic.value else "");
  }

  lemma PanicIsPlain(s: HermesState, step: RuntimeStep, message: string)
    ensures Plain(PanicCommit(s, step, message))
  {
  }

  lemma AttemptIsPlain(cfg: Config, c: Coordinator, s: HermesState, step: RuntimeStep, e: Event)
    ensures var commit := Attempt(cfg, c, s, step, e);
      commit.Some? ==> Plain(commit.value)
  {
    if e.Turning? {
      TurnIsPlain(cfg, c, s, step, e.tick);
    }
  }

  /** A plain commit is its single write, and it never puts a delta before a replacement. */
  lemma PlainIsSingle(s: HermesState, commit: Commit)
    requires Plain(commit)
    ensures Accepts(s, Write(commit)) ==> Reduced(s, commit.updates) == Ok(Effect(s, Write(commit)))
    ensures !Accepts(s, Write(commit)) ==> Reduced(s, commit.updates).Err?
    ensures ReplacementsFirst(commit.updates)
  {
    ReducedSingle(s, Write(commit));
    if |commit.updates| == 0 {
      ReducedNothing(s);
    } else if |commit.updates| == 1 {
      assert commit.updates == [commit.updates[0]];
    } else {
      assert commit.updates == [commit.updates[0], commit.updates[1]];
      ReducedPair(s, commit.updates[0], commit.updates[1].status.value);
    }
  }

  datatype View = View(s: HermesState, step: RuntimeStep)

  /** The latest state and step after an event; a rejected commit changes nothing. */
  function After(cfg: Config, c: Coordinator, v: View, e: Event): View {
    var commit := Attempt(cfg, c, v.s, v.step, e);
    if commit.Some? && Accepts(v.s, Write(commit.value))
    then View(Effect(v.s, Write(commit.value)), commit.value.nextStep) else v
  }

  // ---------- Why a view changes ----------

  /** The five kinds of durable boundary. */
  datatype Cause =
    | Nothing
    | Interrupting(interrupt: Interrupt)
    | Ending(write: StateUpdate)
    | Dispatched(out: NodeOutput)
    | Resolved(commit: Commit)

  /** A write of status and errors alone. */
  predicate EndingWrite(w: StateUpdate) {
    w == NO_UPDATE.(status := w.status, errors := w.errors) && (w.status.Some? ==> w.status.value == TaskFailed)
  }

  function CauseOf(cfg: Config, c: Coordinator, v: View, e: Event): Cause {
    match e
    case Turning(t) => TurnCause(cfg, c, v, t)
    case Cancelling(why, now) => Interrupting(Interrupt(0, v.step, v.step, None, "ctx_cancelled: " + why, now, None))
    case Resolving(d, now) =>
      var r := Resolution(v.s, d, now);
      if r.Err? then Nothing
      else if d == Abort then Ending(NO_UPDATE.(status := Some(TaskFailed)))
      else Resolved(r.value)
    case Orphaned(_) => Ending(NO_UPDATE.(status := Some(TaskFailed)))
    case Restarting => Nothing
  }

  function TurnCause(cfg: Config, c: Coordinator, v: View, t: Tick): Cause {
    var gate := Gate(v.s, v.step, t.now);
    if gate.Some? then
      if gate.value.Record? then Interrupting(Interrupt(0, v.step, v.step, None, "budget_exceeded", t.now, None))
      else Nothing
    else if t.panic.Some? then Ending(Write(PanicCommit(v.s, v.step, t.panic.value)))
    else
      var r := Dispatch(cfg, c, v.s, v.step, t).0;
      if r.Err? || r.value.nextStep == NoStep then Nothing else Dispatched(r.value)
  }

  function Consequence(v: View, cause: Cause): View {
    match cause
    case Nothing => v
    case Interrupting(i) => View(Effect(v.s, NO_UPDATE.(interrupt := Some(i))), v.step)
    case Ending(w) => if Accepts(v.s, w) then View(Effect(v.s, w), Terminal) else v
    case Dispatched(out) =>
      if Accepts(v.s, NodeWrite(v.s, out)) then View(Effect(v.s, NodeWrite(v.s, out)), out.nextStep) else v
    case Resolved(commit) => View(Effect(v.s, Write(commit)), commit.nextStep)
  }

  /** A turn that dispatches its node and commits the output. */
  lemma DispatchExplains(cfg: Config, c: Coordinator, v: View, t: Tick)
    requires Decide(cfg, c, v.s, v.step, t).Advance?
    ensures After(cfg, c, v, Turning(t)) == Consequence(v, TurnCause(cfg, c, v, t))
  {
    TurnIsOutput(cfg, c, v.s, v.step, t);
    assert TurnCause(cfg, c, v, t) == Dispatched(Dispatch(cfg, c, v.s, v.step, t).0.value);
  }

  lemma TurnCauseExplains(cfg: Config, c: Coordinator, v: View, t: Tick)
    ensures After(cfg, c, v, Turning(t)) == Consequence(v, TurnCause(cfg, c, v, t))
  {
    if Gate(v.s, v.step, t.now).Some? {
      GateExplains(cfg, c, v, t);
    } else if Decide(cfg, c, v.s, v.step, t).Advance? {
      DispatchExplains(cfg, c, v, t);
    } else {
      FailureExplains(cfg, c, v, t);
    }
  }

  /** A turn that a gate turns away. */
  lemma GateExplains(cfg: Config, c: Coordinator, v: View, t: Tick)
    requires Gate(v.s, v.step, t.now).Some?
    ensures After(cfg, c, v, Turning(t)) == Consequence(v, TurnCause(cfg, c, v, t))
  {
    if Gate(v.s, v.step, t.now).value.Record? {
      BudgetWrites(v.step, t.now);
      assert Attempt(cfg, c, v.s, v.step, Turning(t)) == Some(BudgetCommit(v.step, t.now));
    } else {
      assert Attempt(cfg, c, v.s, v.step, Turning(t)) == None;
    }
  }

  lemma BudgetWrites(step: RuntimeStep, now: int)
    ensures var commit := BudgetCommit(step, now);
      commit.nextStep == step
      && Write(commit) ==
         NO_UPDATE.(interrupt := Some(Interrupt(0, step, step, None, "budget_exceeded", now, None)))
  {
  }

  /** A turn whose node panics, fails, or names no next step. */
  lemma FailureExplains(cfg: Config, c: Coordinator, v: View, t: Tick)
    requires Gate(v.s, v.step, t.now).None? && !Decide(cfg, c, v.s, v.step, t).Advance?
    ensures After(cfg, c, v, Turning(t)) == Consequence(v, TurnCause(cfg, c, v, t))
  {
    if t.panic.Some? {
      assert Attempt(cfg, c, v.s, v.step, Turning(t)) == Some(PanicCommit(v.s, v.step, t.panic.value));
    } else {
      assert Attempt(cfg, c, v.s, v.step, Turning(t)) == None;
    }
  }

  lemma TurnCauseFacts(cfg: Config, c: Coordinator, v: View, t: Tick)
    ensures var cause := TurnCause(cfg, c, v, t);
      && !cause.Resolved?
      && (cause.Ending? ==> EndingWrite(cause.write))
      && (cause.Dispatched? ==> Gate(v.s, v.step, t.now).None? && Dispatch(cfg, c, v.s, v.step, t).0 == Ok(cause.out))
  {
  }

  lemma ResolutionWrites(s: HermesState, d: Choice, now: int)
    requires Resolution(s, d, now).Ok?
    ensures var commit := Resolution(s, d, now).value;
      if d == Abort then Write(commit) == NO_UPDATE.(status := Some(TaskFailed)) && commit.nextStep == Terminal
      else Write(commit).status.None?
  {
  }

  lemma ResolvingExplains(cfg: Config, c: Coordinator, v: View, d: Choice, now: int)
    ensures After(cfg, c, v, Resolving(d, now)) == Consequence(v, CauseOf(cfg, c, v, Resolving(d, now)))
  {
    var r := Resolution(v.s, d, now);
    if r.Ok? {
      ResolutionWrites(v.s, d, now);
      assert Attempt(cfg, c, v.s, v.step, Resolving(d, now)) == Some(r.value);
    }
  }

  /** What an event does is the consequence of its cause. */
  lemma CauseExplains(cfg: Config, c: Coordinator, v: View, e: Event)
    ensures After(cfg, c, v, e) == Consequence(v, CauseOf(cfg, c, v, e))
  {
    match e
    case Turning(t) => TurnCauseExplains(cfg, c, v, t);
    case Resolving(d, now) => ResolvingExplains(cfg, c, v, d, now);
    case _ =>
  }

  lemma CauseFacts(cfg: Config, c: Coordinator, v: View, e: Event)
    ensures var cause := CauseOf(cfg, c, v, e);
      && (cause.Ending? ==> EndingWrite(cause.write))
      && (cause.Dispatched? ==> e.Turning? && Gate(v.s, v.step, e.tick.now).None?
                                && Dispatch(cfg, c, v.s, v.step, e.tick).0 == Ok(cause.out))
      && (cause.Resolved? ==>
            e.Resolving? && e.decision != Abort && Resolution(v.s, e.decision, e.now) == Ok(cause.commit))
  {
    if e.Turning? {
      TurnCauseFacts(cfg, c, v, e.tick);
    }
  }

  function CauseWrite(s: HermesState, cause: Cause): StateUpdate {
    match cause
    case Nothing => NO_UPDATE
    case Interrupting(i) => NO_UPDATE.(interrupt := Some(i))
    case Ending(w) => w
    case Dispatched(out) => NodeWrite(s, out)
    case Resolved(commit) => Write(commit)
  }

  /** Either nothing happened, or the cause's write took effect. */
  lemma CauseIsWrite(cfg: Config, c: Coordinator, v: View, e: Event)
    ensures var s' := After(cfg, c, v, e).s;
      s' == v.s || s' == Effect(v.s, CauseWrite(v.s, CauseOf(cfg, c, v, e)))
  {
    CauseExplains(cfg, c, v, e);
  }

  /** An interrupt installed by an event resumes at the step that was due. */
  lemma InterruptingFacts(cfg: Config, c: Coordinator, v: View, e: Event)
    ensures var cause := CauseOf(cfg, c, v, e);
      cause.Interrupting? ==>
        && cause.interrupt.resumeStep == v.step && cause.interrupt.subTaskIdx.None? && cause.interrupt.messageID == 0
        && (cause.interrupt.reason == "budget_exceeded" ==> v.step != Terminal)
  {
    if e.Cancelling? {
      assert ("ctx_cancelled: " + e.why)[0] == 'c';
    }
  }

  /** A task as its events see it: the latest view and the coordinator. */
  datatype Live = Live(v: View, coord: Coordinator)

  function Step(cfg: Config, l: Live, e: Event): Live {
    Live(After(cfg, l.coord, l.v, e), CoordinatorAfter(cfg, l.coord, l.v.s, l.v.step, e))
  }

  function Run(cfg: Config, l: Live, es: seq<Event>): Live
    decreases |es|
  {
    if es == [] then l else Step(cfg, Run(cfg, l, es[..|es| - 1]), es[|es| - 1])
  }

  function LiveOf(m: Machine): Live
    requires m.log.history != []
  {
    Live(View(m.log.Last().state, m.log.Last().nextStep), m.coord)
  }

  /** The machine's log is in good order: synced, linear, replayable. */
  ghost predicate Sound(taskID: string, log: TaskLog) {
    log.InSync() && Linear(taskID, log.history) && Replays(log.history)
  }

  /** One plain commit keeps the log sound, appends at most one snapshot, and moves the state by its write. */
  lemma CommitMoves(taskID: string, log: TaskLog, commit: Commit)
    requires log.history != [] && Sound(taskID, log) && Plain(commit)
    ensures var log', s := CommittedOr(taskID, log, commit), log.Last().state;
      && Sound(taskID, log') && log.history <= log'.history && |log'.history| <= |log.history| + 1
      && (Accepts(s, Write(commit)) ==>
            log'.Last().state == Effect(s, Write(commit)) && log'.Last().nextStep == commit.nextStep)
      && (!Accepts(s, Write(commit)) ==> log' == log)
  {
    PlainIsSingle(log.Last().state, commit);
    CommitStaysLinear(taskID, log, commit);
    if Committed(taskID, log, commit).Ok? {
      CommitSyncs(taskID, log, commit);
      CommitReplaysExactly(taskID, log, commit);
    }
  }

  /** One event keeps the log sound, appends at most one snapshot, and moves the view as Step says. */
  lemma HappenIsStep(cfg: Config, taskID: string, m: Machine, e: Event)
    requires m.log.history != [] && Sound(taskID, m.log)
    ensures var m' := Happen(cfg, taskID, m, e);
      && Sound(taskID, m'.log)
      && m.log.history <= m'.log.history && |m'.log.history| <= |m.log.history| + 1
      && LiveOf(m') == Step(cfg, LiveOf(m), e)
  {
    var s, step := m.log.Last().state, m.log.Last().nextStep;
    var commit := Attempt(cfg, m.coord, s, step, e);
    if commit.Some? {
      AttemptIsPlain(cfg, m.coord, s, step, e);
      CommitMoves(taskID, m.log, commit.value);
    }
  }

  /**
    Every run, whatever happens in it, leaves a linear log whose recorded writes
    replay to its states; no commit is ever refused as a duplicate.
   */
  lemma {:induction false} RunsReplay(cfg: Config, taskID: string, m: Machine, es: seq<Event>)
    requires m.log.history != [] && Sound(taskID, m.log)
    ensures Sound(taskID, HappenAll(cfg, taskID, m, es).log)
    ensures m.log.history <= HappenAll(cfg, taskID, m, es).log.history
    ensures LiveOf(HappenAll(cfg, taskID, m, es)) == Run(cfg, LiveOf(m), es)
    decreases |es|
  {
    if es == [] {
    } else {
      var n := |es| - 1;
      RunsReplay(cfg, taskID, m, es[..n]);
      HappenIsStep(cfg, taskID, HappenAll(cfg, taskID, m, es[..n]), es[n]);
    }
  }

  /** Folding the recorded writes over the first snapshot gives every later state of the run. */
  lemma RunsReplayToEveryState(cfg: Config, taskID: string, m: Machine, es: seq<Event>, k: nat)
    requires m.log.history != [] && Sound(taskID, m.log)
    requires k < |HappenAll(cfg, taskID, m, es).log.history|
    ensures var h := HappenAll(cfg, taskID, m, es).log.history;
      Replay(h[0].state, Writes(h[1..k + 1])) == Ok(h[k].state)
  {
    RunsReplay(cfg, taskID, m, es);
    ReplayPrefix(HappenAll(cfg, taskID, m, es).log.history, k);
  }

  /** The snapshot an event appends is the view it leads to. */
  lemma AppendedIsView(cfg: Config, taskID: string, m: Machine, e: Event, k: nat)
    requires m.log.history != [] && Sound(taskID, m.log)
    requires |m.log.history| <= k < |Happen(cfg, taskID, m, e).log.history|
    ensures var snap := Happen(cfg, taskID, m, e).log.history[k];
      Step(cfg, LiveOf(m), e).v == View(snap.state, snap.nextStep)
  {
    HappenIsStep(cfg, taskID, m, e);
    AppendedIsLast(m, Happen(cfg, taskID, m, e), k);
  }

  lemma AppendedIsLast(m: Machine, m': Machine, k: nat)
    requires m.log.history != [] && |m.log.history| <= k < |m'.log.history| <= |m.log.history| + 1
    ensures LiveOf(m').v == View(m'.log.history[k].state, m'.log.history[k].nextStep)
  {
  }

  /** Every snapshot a run appends is the view after some prefix of its events. */
  lemma {:induction false} SnapshotsAreViews(cfg: Config, taskID: string, m: Machine, es: seq<Event>, k: nat)
    returns (j: nat)
    requires m.log.history != [] && Sound(taskID, m.log)
    requires |m.log.history| <= k < |HappenAll(cfg, taskID, m, es).log.history|
    ensures j <= |es|
    ensures var snap := HappenAll(cfg, taskID, m, es).log.history[k];
      Run(cfg, LiveOf(m), es[..j]).v == View(snap.state, snap.nextStep)
    decreases |es|
  {
    var n := |es| - 1;
    RunsReplay(cfg, taskID, m, es[..n]);
    var before := HappenAll(cfg, taskID, m, es[..n]);
    if k < |before.log.history| {
      HappenIsStep(cfg, taskID, before, es[n]);
      j := SnapshotsAreViews(cfg, taskID, m, es[..n], k);
      assert es[..n][..j] == es[..j];
    } else {
      AppendedIsView(cfg, taskID, before, es[n], k);
      j := |es|;
      assert es[..j] == es;
    }
  }

  // ---------- The walker's runs are sequences of events ----------

  /** A walker turn is the event Turning. */
  lemma IterateIsTurn(cfg: Config, taskID: string, log: TaskLog, c: Coordinator, t: Tick)
    requires log.history != []
    ensures var turn := Iterate(cfg, taskID, log, c, t);
      Machine(turn.log, turn.coord) == Happen(cfg, taskID, Machine(log, c), Turning(t))
  {
  }

  /** A cancellation recorded at the top of a turn is the event Cancelling. */
  lemma CancelIsEvent(cfg: Config, taskID: string, log: TaskLog, c: Coordinator, why: string, now: int)
    requires log.history != []
    ensures Cancel(taskID, log, true, why, now) == Happen(cfg, taskID, Machine(log, c), Cancelling(why, now)).log
  {
  }

  lemma LastEvent(cfg: Config, taskID: string, m: Machine, es: seq<Event>, e: Event)
    requires m.log.history != []
    ensures HappenAll(cfg, taskID, m, es + [e]) == Happen(cfg, taskID, HappenAll(cfg, taskID, m, es), e)
  {
    assert (es + [e])[..|es|] == es;
  }

  /** One event and a sequence of them, as total functions. */
  function Once(cfg: Config, taskID: string): (Machine, Event) -> Machine {
    (m: Machine, e: Event) => if m.log.history == [] then m else Happen(cfg, taskID, m, e)
  }

  function Always(cfg: Config, taskID: string): (Machine, seq<Event>) -> Machine {
    (m: Machine, es: seq<Event>) => if m.log.history == [] then m else HappenAll(cfg, taskID, m, es)
  }

  /** What unfolds at the end unfolds at the front. */
  lemma {:induction false} FirstOf(once: (Machine, Event) -> Machine, always: (Machine, seq<Event>) -> Machine,
                                   m: Machine, e: Event, es: seq<Event>)
    requires forall m :: always(m, []) == m
    requires forall m, es, e :: always(m, es + [e]) == once(always(m, es), e)
    ensures always(m, [e] + es) == always(once(m, e), es)
    decreases |es|
  {
    if es == [] {
      assert [e] + [] == [] + [e];
    } else {
      var before, last := es[..|es| - 1], es[|es| - 1];
      FirstOf(once, always, m, e, before);
      assert [e] + es == ([e] + before) + [last] && es == before + [last];
    }
  }

  lemma FirstEvent(cfg: Config, taskID: string, m: Machine, e: Event, es: seq<Event>)
    requires m.log.history != []
    ensures Happen(cfg, taskID, m, e).log.history != []
    ensures HappenAll(cfg, taskID, m, [e] + es) == HappenAll(cfg, taskID, Happen(cfg, taskID, m, e), es)
  {
    var once, always := Once(cfg, taskID), Always(cfg, taskID);
    forall m: Machine ensures always(m, []) == m {
      if m.log.history != [] {
        NoEvent(cfg, taskID, m);
      }
    }
    forall m: Machine, es, e ensures always(m, es + [e]) == once(always(m, es), e) {
      if m.log.history != [] {
        LastEvent(cfg, taskID, m, es, e);
      }
    }
    FirstOf(once, always, m, e, es);
    HappenKeepsLog(cfg, taskID, m, e);
  }

  lemma HappenKeepsLog(cfg: Config, taskID: string, m: Machine, e: Event)
    requires m.log.history != []
    ensures Happen(cfg, taskID, m, e).log.history != []
  {
  }

  lemma NoEvent(cfg: Config, taskID: string, m: Machine)
    requires m.log.history != []
    ensures HappenAll(cfg, taskID, m, []) == m
  {
  }

  lemma OneEvent(cfg: Config, taskID: string, m: Machine, e: Event)
    requires m.log.history != []
    ensures HappenAll(cfg, taskID, m, [e]) == Happen(cfg, taskID, m, e)
  {
    FirstEvent(cfg, taskID, m, e, []);
    NoEvent(cfg, taskID, Happen(cfg, taskID, m, e));
    assert [e] + [] == [e];
  }

  /** A log and its coordinator under a sequence of events. */
  type Telling = (TaskLog, Coordinator, seq<Event>) -> TaskLog

  function Tells(cfg: Config, taskID: string): Telling {
    (log: TaskLog, c: Coordinator, es: seq<Event>) =>
      if log.history == [] then log else HappenAll(cfg, taskID, Machine(log, c), es).log
  }

  function Cancels(loaded: bool, why: string, now: int): seq<Event> {
    if loaded then [Cancelling(why, now)] else []
  }

  lemma CancelIsTold(cfg: Config, taskID: string, log: TaskLog, c: Coordinator, loaded: bool, why: string, now: int)
    requires log.history != []
    ensures Tells(cfg, taskID)(log, c, Cancels(loaded, why, now)) == Cancel(taskID, log, loaded, why, now)
  {
    if loaded {
      CancelIsEvent(cfg, taskID, log, c, why, now);
      OneEvent(cfg, taskID, Machine(log, c), Cancelling(why, now));
    } else {
      NoEvent(cfg, taskID, Machine(log, c));
    }
  }

  lemma TurnIsTold(cfg: Config, taskID: string, log: TaskLog, c: Coordinator, t: Tick, rest: seq<Event>)
    requires log.history != []
    ensures var turn := TurnsOf(cfg, taskID)(log, c, t);
      turn.log.history != []
      && Tells(cfg, taskID)(log, c, [Turning(t)] + rest) == Tells(cfg, taskID)(turn.log, turn.coord, rest)
  {
    IterateIsTurn(cfg, taskID, log, c, t);
    FirstEvent(cfg, taskID, Machine(log, c), Turning(t), rest);
  }

  /** Turns and cancellations of a loop are events. */
  ghost predicate Faithful(turner: Turner, tells: Telling, taskID: string) {
    && (forall log: TaskLog, c :: log.history != [] ==> tells(log, c, []) == log)
    && (forall log: TaskLog, c, t, rest :: log.history != [] ==>
          var turn := turner(log, c, t);
          turn.log.history != [] && tells(log, c, [Turning(t)] + rest) == tells(turn.log, turn.coord, rest))
    && (forall log: TaskLog, c, loaded, why, now :: log.history != [] ==>
          tells(log, c, Cancels(loaded, why, now)) == Cancel(taskID, log, loaded, why, now))
  }

  /** A loop whose turns and cancellations are events tells a sequence of events. */
  lemma {:induction false} LoopIsEvents(turner: Turner, tells: Telling, taskID: string, p: Position,
                                        env: nat -> Tick, n: nat)
    returns (es: seq<Event>)
    requires p.log.history != []
    requires Faithful(turner, tells, taskID)
    ensures tells(p.log, p.coord, es) == RunFor(turner, taskID, p, env, n).0
    decreases n
  {
    var t := env(p.turns);
    if t.ctxErr.Some? {
      es := Cancels(p.loaded, t.ctxErr.value, t.now);
    } else if n == 0 {
      es := [];
    } else {
      var turn := turner(p.log, p.coord, t);
      var rest: seq<Event> := [];
      assert tells(p.log, p.coord, [Turning(t)] + rest) == tells(turn.log, turn.coord, rest);
      if !turn.stop {
        rest := LoopIsEvents(turner, tells, taskID, Position(turn.log, turn.coord, true, p.turns + 1), env, n - 1);
      }
      es := [Turning(t)] + rest;
    }
  }

  /** Whatever a run of the walker does to the log is a sequence of events, so what all events keep, all runs keep. */
  lemma RunIsEvents(cfg: Config, taskID: string, p: Position, env: nat -> Tick, n: nat) returns (es: seq<Event>)
    requires p.log.history != []
    ensures HappenAll(cfg, taskID, Machine(p.log, p.coord), es).log == RunFor(TurnsOf(cfg, taskID), taskID, p, env, n).0
  {
    var tells, turner := Tells(cfg, taskID), TurnsOf(cfg, taskID);
    forall log: TaskLog, c | log.history != [] ensures tells(log, c, []) == log {
      NoEvent(cfg, taskID, Machine(log, c));
    }
    forall log: TaskLog, c, t, rest | log.history != []
      ensures var turn := turner(log, c, t);
        turn.log.history != [] && tells(log, c, [Turning(t)] + rest) == tells(turn.log, turn.coord, rest)
    {
      TurnIsTold(cfg, taskID, log, c, t, rest);
    }
    forall log: TaskLog, c, loaded, why, now | log.history != []
      ensures tells(log, c, Cancels(loaded, why, now)) == Cancel(taskID, log, loaded, why, now)
    {
      CancelIsTold(cfg, taskID, log, c, loaded, why, now);
    }
    es := LoopIsEvents(turner, tells, taskID, p, env, n);
  }

  // ---------- Where runs start ----------

  /** seedPlannerSnapshot: the first snapshot, at the planner, with step 0. */
  function SeedSnapshot(task: TaskState, walking: Option<Walking>): Snapshot {
    Snapshot("", 0, FromTask(task).(walking := walking), Planner, NoStep, NO_UPDATE, "seed", "")
  }

  /** A freshly created task after seeding. */
  function Seeded(task: TaskState, walking: Option<Walking>): TaskLog {
    TaskLog(task, [SeedSnapshot(task, walking).(id := AutoID(task.ident.taskID, 1))])
  }

  lemma SeedIsSound(task: TaskState, walking: Option<Walking>)
    requires task.ident.taskID != ""
    ensures Created(task.ident.taskID, [], SeedSnapshot(task, walking)) == Ok(Seeded(task, walking).history)
    ensures Sound(task.ident.taskID, Seeded(task, walking))
  {
    var seed := SeedSnapshot(task, walking);
    assert !Duplicate([], AutoID(task.ident.taskID, 1), 0);
    assert [] + [seed.(id := AutoID(task.ident.taskID, 1))] == Seeded(task, walking).history;
  }
}

/**
  The walker: read the latest snapshot, check the gates, dispatch the node for its
  next step, commit what the node returned, repeat. One turn is the function
  Iterate; the loop itself is Walker.Run.
 */
module Runtime {
  import opened State
  import opened Store
  import opened NodeTypes
  import opened ReplanCoordinator
  import opened PartialRetry
  import ExecutorNode
  import StrictReviewNode
  import ApprovalNode
  import ReviewerNode
  import ReplanSetupNode
  import PlannerNode

  /** Everything the world decides in one turn: cancellation, clock, answers, panics. */
  datatype Tick = Tick(
    ctxErr: Option<string>,
    now: int,
    plan: PlannerNode.PlanAnswer,
    run: ExecutorNode.RunAnswer,
    strict: Option<StrictReviewNode.ReviewResult>,
    review: Option<Review>,
    replanGoal: string,
    panic: Option<string>)

  datatype RunError =
    | Cancelled(reason: string)
    | NoSnapshot
    | Paused
    | BudgetExceeded
    | Unregistered(step: RuntimeStep)
    | NodeFailed(step: RuntimeStep, failure: NodeError)
    | NodePanicked(step: RuntimeStep)
    | EmptyNextStep
    | CommitFailed(cause: StoreError)
    | MaxStepsExceeded

  predicate Registered(step: RuntimeStep) {
    step.Planner? || step.Executor? || step.StrictReview? || step.Reviewer? || step.ReplanSetup? || step.Approval?
  }

  /** One node call; only the task reviewer and the replan decider touch the coordinator. */
  function Dispatch(cfg: Config, c: Coordinator, s: HermesState, step: RuntimeStep, t: Tick)
    : (Result<NodeOutput, NodeError>, Coordinator)
    requires Registered(step)
  {
    match step
    case Planner => (PlannerNode.Handle(cfg, s, t.plan), c)
    case Executor => (ExecutorNode.Handle(cfg, s, t.run, t.now), c)
    case StrictReview => (StrictReviewNode.Handle(cfg, s, t.strict), c)
    case Approval => (ApprovalNode.Handle(cfg, s), c)
    case Reviewer =>
      var (answer, c') := ReviewTask(cfg, c, s, t.review);
      (Ok(ReviewerNode.Handle(answer)), c')
    case ReplanSetup =>
      var (decision, c') := DecideReplan(cfg, c, t.replanGoal);
      (Ok(ReplanSetupNode.Handle(decision)), c')
  }

  function PlainCommit(updates: seq<StateUpdate>, next: RuntimeStep, source: RuntimeStep, reason: string): Commit {
    Commit(updates, next, source, reason, "", "")
  }

  function InterruptCommit(step: RuntimeStep, interruptReason: string, reason: string, now: int): Commit {
    PlainCommit([NO_UPDATE.(interrupt := Some(Interrupt(0, step, step, None, interruptReason, now, None)))],
                step, step, reason)
  }

  function CancelCommit(step: RuntimeStep, why: string, now: int): Commit {
    InterruptCommit(step, "ctx_cancelled: " + why, "ctx_cancelled", now)
  }

  function BudgetCommit(step: RuntimeStep, now: int): Commit {
    InterruptCommit(step, "budget_exceeded", "budget_exceeded", now)
  }

  function PanicCommit(s: HermesState, step: RuntimeStep, message: string): Commit {
    var u := NO_UPDATE.(errors := [StateError(step, message, false)]);
    PlainCommit([if s.status.IsTerminal() then u else u.(status := Some(TaskFailed))], Terminal, step, "node_panic")
  }

  predicate SetsStatus(updates: seq<StateUpdate>) {
    exists i :: 0 <= i < |updates| && updates[i].status.Some?
  }

  /** A step to terminal that sets no status gets Done, unless the task has ended already. */
  function NodeCommit(s: HermesState, step: RuntimeStep, out: NodeOutput): Commit {
    var updates :=
      if out.nextStep == Terminal && !SetsStatus(out.updates) && !s.status.IsTerminal()
      then out.updates + [NO_UPDATE.(status := Some(TaskDone))] else out.updates;
    PlainCommit(updates, out.nextStep, step, out.reason)
  }

  /** What a turn decides to do with the latest snapshot. */
  datatype Action =
    | Leave(err: Option<RunError>)
    | Record(commit: Commit, error: RunError)
    | Advance(commit: Commit, coord: Coordinator, halt: bool)

  /** The gates at the top of a turn, in the source's order. */
  function Gate(s: HermesState, step: RuntimeStep, now: int): Option<Action> {
    if step == Terminal then Some(Leave(None))
    else if s.interrupt.Some? && step != Approval then Some(Leave(Some(Paused)))
    else if s.budget.Exceeded(now) then Some(Record(BudgetCommit(step, now), BudgetExceeded))
    else if !Registered(step) then Some(Leave(Some(Unregistered(step))))
    else None
  }

  /** The dispatch of a registered node, panics included. */
  function NodeAction(cfg: Config, c: Coordinator, s: HermesState, step: RuntimeStep, t: Tick): Action
    requires Registered(step)
  {
    if t.panic.Some? then Record(PanicCommit(s, step, t.panic.value), NodePanicked(step))
    else
      var (result, c') := Dispatch(cfg, c, s, step, t);
      match result
      case Err(why) => Leave(Some(NodeFailed(step, why)))
      case Ok(out) =>
        if out.nextStep == NoStep then Leave(Some(EmptyNextStep))
        else Advance(NodeCommit(s, step, out), c', out.halt)
  }

  function Decide(cfg: Config, c: Coordinator, s: HermesState, step: RuntimeStep, t: Tick): Action {
    var gate := Gate(s, step, t.now);
    if gate.Some? then gate.value else NodeAction(cfg, c, s, step, t)
  }

  /** The result of one turn: the log after it, and whether the run stops there. */
  datatype Turn = Turn(log: TaskLog, coord: Coordinator, stop: bool, err: Option<RunError>)

  function CommittedOr(taskID: string, log: TaskLog, commit: Commit): TaskLog {
    var r := Committed(taskID, log, commit);
    if r.Ok? then r.value else log
  }

  /** What an action makes of the log, and whether the run stops there. */
  function Applied(taskID: string, log: TaskLog, c: Coordinator, action: Action): Turn {
    match action
    case Leave(err) => Turn(log, c, true, err)
    case Record(commit, err) => Turn(CommittedOr(taskID, log, commit), c, true, Some(err))
    case Advance(commit, c', halt) =>
      match Committed(taskID, log, commit)
      case Err(why) => Turn(log, c', true, Some(CommitFailed(why)))
      case Ok(log') => Turn(log', c', commit.nextStep == Terminal || halt, None)
  }

  function Iterate(cfg: Config, taskID: string, log: TaskLog, c: Coordinator, t: Tick): Turn {
    if log.history == [] then Turn(log, c, true, Some(NoSnapshot))
    else Applied(taskID, log, c, Decide(cfg, c, log.Last().state, log.Last().nextStep, t))
  }

  /** Cancellation at the top of a turn; before the first read there is nothing to attach it to. */
  function Cancel(taskID: string, log: TaskLog, loaded: bool, why: string, now: int): TaskLog {
    if loaded && log.history != [] then CommittedOr(taskID, log, CancelCommit(log.Last().nextStep, why, now)) else log
  }

  datatype Outcome =
    | OutOfSteps(loaded: bool, coord: Coordinator)
    | Stopped(err: Option<RunError>)

  /** One turn, as the loop calls it. */
  type Turner = (TaskLog, Coordinator, Tick) -> Turn

  function TurnsOf(cfg: Config, taskID: string): Turner {
    (log: TaskLog, c: Coordinator, t: Tick) => Iterate(cfg, taskID, log, c, t)
  }

  /** Where a run stands: the log, the coordinator, whether a snapshot was read, the turns taken. */
  datatype Position = Position(log: TaskLog, coord: Coordinator, loaded: bool, turns: nat)

  /** At most n more turns from a position, in a given environment. */
  function RunFor(turner: Turner, taskID: string, p: Position, env: nat -> Tick, n: nat): (TaskLog, Outcome)
    decreases n
  {
    var t := env(p.turns);
    if t.ctxErr.Some? then
      (Cancel(taskID, p.log, p.loaded, t.ctxErr.value, t.now), Stopped(Some(Cancelled(t.ctxErr.value))))
    else if n == 0 then (p.log, OutOfSteps(p.loaded, p.coord))
    else
      var turn := turner(p.log, p.coord, t);
      if turn.stop then (turn.log, Stopped(turn.err))
      else RunFor(turner, taskID, Position(turn.log, turn.coord, true, p.turns + 1), env, n - 1)
  }
}

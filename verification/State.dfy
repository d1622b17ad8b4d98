/**
  The entities of the durable Hermes runtime: task and sub-task records, the
  canonical HermesState stored in snapshots, the partial updates that nodes
  return, and the lifecycle rules that guard them.

  Text whose byte length matters (summaries, results, feedback) is a sequence of
  bytes; identifiers, model names and headings are sequences of code points.
 */
module State {
  datatype Option<+T> = None | Some(value: T)

  datatype Result<+T, +E> = Ok(value: T) | Err(error: E)

  newtype byte = x: int | 0 <= x < 256

  type Text = seq<byte>

  const NEWLINE: byte := 10

  /** An ASCII literal as bytes. */
  function Ascii(s: string): Text {
    seq(|s|, i requires 0 <= i < |s| => (s[i] as int % 256) as byte)
  }

  datatype TaskStatus =
    | NoStatus | Planning | Executing
    | TaskDone | TaskFailed | TaskInterrupted
    | OtherStatus(name: string)
  {
    predicate IsTerminal() {
      TaskDone? || TaskFailed? || TaskInterrupted?
    }
  }

  datatype SubTaskStatus =
    | NoSubStatus | Pending | InProgress
    | SubDone | SubSkipped | SubFailed
    | OtherSubStatus(name: string)
  {
    predicate IsResolved() {
      SubDone? || SubSkipped? || SubFailed?
    }
  }

  predicate ValidTransition(from: TaskStatus, to: TaskStatus) {
    if from == NoStatus || from == to then true
    else match from
      case Planning => to == Executing || to.IsTerminal()
      case Executing => to.IsTerminal()
      case _ => false
  }

  datatype RuntimeStep =
    | NoStep | Planner | ReplanSetup | Executor | Reviewer
    | StrictReview | Approval | Terminal
    | OtherStep(name: string)

  datatype SubTask = SubTask(
    id: string,
    description: string,
    status: SubTaskStatus,
    result: Text,
    attempts: int,
    tokensUsed: int,
    checklistItemIDs: seq<string>,
    strictRetryFeedback: Text)

  datatype Artifact = Artifact(path: string, hash: string, subTaskID: string)

  /** The counters shared by the per-model and the per-phase ledgers. */
  datatype Counters = Counters(
    input: int,
    uncached: int,
    cacheRead: int,
    cacheCreation: int,
    output: int,
    cost: real,
    calls: int)
  {
    function Plus(other: Counters): Counters {
      Counters(input + other.input, uncached + other.uncached,
               cacheRead + other.cacheRead, cacheCreation + other.cacheCreation,
               output + other.output, cost + other.cost, calls + other.calls)
    }

    /** A reported delta that names no call count stands for one call. */
    function Normalized(): Counters {
      if calls <= 0 then this.(calls := 1) else this
    }
  }

  const ZERO_COUNTERS := Counters(0, 0, 0, 0, 0, 0.0, 0)

  /** One ledger row; the key is a model name, or a (phase, model) pair. */
  datatype Usage<K> = Usage(key: K, counters: Counters)

  datatype PhaseKey = PhaseKey(phase: string, model: string)

  type ModelUsage = Usage<string>
  type PhaseUsage = Usage<PhaseKey>

  /** Times are nanoseconds; startedAt is None for Go's zero time. */
  datatype TokenBudget = TokenBudget(
    maxTotalTokens: int,
    maxWallclockSeconds: int,
    usedTokens: int,
    startedAt: Option<int>)
  {
    predicate Exceeded(now: int) {
      || (maxTotalTokens > 0 && usedTokens >= maxTotalTokens)
      || (maxWallclockSeconds > 0 && startedAt.Some?
          && now - startedAt.value >= maxWallclockSeconds * 1_000_000_000)
    }
  }

  datatype SubTaskResult = SubTaskResult(
    subTaskID: string,
    index: int,
    status: SubTaskStatus,
    result: Text,
    tokensUsed: int,
    attempts: int,
    endedAt: Option<int>)

  /** The payload keeps only the sub-task index, the one entry that is read back. */
  datatype Interrupt = Interrupt(
    messageID: int,
    sourceStep: RuntimeStep,
    resumeStep: RuntimeStep,
    subTaskIdx: Option<int>,
    reason: string,
    createdAt: int,
    expiresAt: Option<int>)

  datatype StateError = StateError(step: RuntimeStep, message: string, retryable: bool)

  datatype ReplanContext = ReplanContext(
    goal: string,
    accumulated: Text,
    preserved: seq<SubTask>,
    attemptIdx: int,
    trigger: string)

  datatype Walking = Walking(
    enabled: bool,
    prevModel: string,
    tokensSeen: int,
    maxContextTokens: int)

  datatype TaskIdent = TaskIdent(taskID: string, chatID: int, threadID: int, projectDir: string)

  datatype HermesState = HermesState(
    ident: TaskIdent,
    plannerSession: string,
    executorSession: string,
    goal: string,
    status: TaskStatus,
    currentIdx: int,
    plan: seq<SubTask>,
    accumulated: Text,
    artifacts: seq<Artifact>,
    budget: TokenBudget,
    githubIssue: int,
    modelUsages: seq<ModelUsage>,
    phaseUsages: seq<PhaseUsage>,
    subTaskResults: seq<SubTaskResult>,
    interrupt: Option<Interrupt>,
    errors: seq<StateError>,
    replan: Option<ReplanContext>,
    walking: Option<Walking>)

  /**
    A partial update. None is Go's nil pointer or nil slice: "not written".
    plan is Some([]) for a non-nil empty slice, which the reducer copies to nil.
   */
  datatype StateUpdate = StateUpdate(
    status: Option<TaskStatus>,
    currentIdx: Option<int>,
    plan: Option<seq<SubTask>>,
    accumulated: Option<Text>,
    accumulatedDelta: Text,
    artifacts: seq<Artifact>,
    modelUsages: seq<ModelUsage>,
    phaseUsages: seq<PhaseUsage>,
    tokenUsageDelta: int,
    budgetStartedAt: Option<int>,
    plannerSession: Option<string>,
    executorSession: Option<string>,
    subTaskResults: seq<SubTaskResult>,
    interrupt: Option<Interrupt>,
    clearInterrupt: bool,
    errors: seq<StateError>,
    githubIssue: Option<int>,
    replan: Option<ReplanContext>,
    clearReplan: bool,
    walking: Option<Walking>,
    clearWalking: bool)

  const NO_UPDATE := StateUpdate(
    None, None, None, None, [], [], [], [], 0, None, None, None, [],
    None, false, [], None, None, false, None, false)

  /** The task row of the store; timestamps are left out. */
  datatype TaskState = TaskState(
    ident: TaskIdent,
    plannerSession: string,
    executorSession: string,
    goal: string,
    plan: seq<SubTask>,
    currentIdx: int,
    accumulated: Text,
    artifacts: seq<Artifact>,
    status: TaskStatus,
    interruptedBy: Option<int>,
    budget: TokenBudget,
    githubIssue: int,
    modelUsages: seq<ModelUsage>,
    phaseUsages: seq<PhaseUsage>)

  datatype Snapshot = Snapshot(
    id: string,
    step: int,
    state: HermesState,
    nextStep: RuntimeStep,
    sourceNode: RuntimeStep,
    writes: StateUpdate,
    reason: string,
    parentID: string)

  /** One durable boundary; empty ids ask the store for its defaults. */
  datatype Commit = Commit(
    updates: seq<StateUpdate>,
    nextStep: RuntimeStep,
    sourceNode: RuntimeStep,
    reason: string,
    snapshotID: string,
    parentID: string)
}

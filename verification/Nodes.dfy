/**
  The graph's nodes. Each Handle reads the state and the answer of the collaborator
  it calls (planner, runner, reviewer), and returns writes plus the next step. The
  collaborators are arbitrary: their answers are parameters.
 */
module NodeTypes {
  import opened State
  import opened Utf8

  datatype NodeOutput = NodeOutput(updates: seq<StateUpdate>, nextStep: RuntimeStep, reason: string, halt: bool)

  datatype NodeError =
    | EmptyPlan
    | IndexOutOfRange(idx: int, size: nat)
    | PlannerError
    | TooManySubTasks(got: nat, max: int)

  /** The engine configuration the registry hands to its nodes. */
  datatype Config = Config(
    plannerModel: string,
    maxSubTasks: int,
    reviewPerTask: bool,
    failurePause: bool,
    strictReview: bool,
    maxRetriesPerSub: int,
    taskRetryEnabled: bool,
    scoreThreshold: int,
    maxTaskRetries: int,
    extract: Text -> seq<Rune>)

  /** Attach one call's telemetry: both ledgers and the budget charge, or nothing. */
  function Charge(u: StateUpdate, phase: string, model: string, c: Counters, tokens: int): StateUpdate {
    if model != "" && tokens > 0 then
      u.(modelUsages := [Usage(model, c)],
         phaseUsages := [Usage(PhaseKey(phase, model), c)],
         tokenUsageDelta := tokens)
    else u
  }

  /** Calls that report only input and output: all input is uncached. */
  function PlainCounters(input: int, output: int, cost: real): Counters {
    Counters(input, input, 0, 0, output, cost, 0)
  }

  function ResultOf(sub: SubTask, idx: int): SubTaskResult {
    SubTaskResult(sub.id, idx, sub.status, sub.result, sub.tokensUsed, sub.attempts, None)
  }

  /** The step after the plan pointer has moved to nextIdx. */
  function StepAfter(cfg: Config, nextIdx: int, total: nat): RuntimeStep {
    if nextIdx < total then Executor
    else if cfg.reviewPerTask then Reviewer
    else Terminal
  }

  /** The writes that finalise the sub-task at idx and move past it. */
  function Finalise(plan: seq<SubTask>, idx: nat, sub: SubTask): StateUpdate
    requires idx < |plan|
  {
    NO_UPDATE.(plan := Some(plan[idx := sub]),
               currentIdx := Some(idx + 1),
               subTaskResults := [ResultOf(sub, idx)])
  }

  predicate InRange(s: HermesState) {
    0 <= s.currentIdx < |s.plan|
  }

  /** The executor passes over such a sub-task without calling the runner. */
  predicate AlreadyDone(sub: SubTask) {
    sub.status == SubDone || sub.status == SubSkipped
  }

  /** The range guards shared by the executor and the strict reviewer. */
  function RangeError(s: HermesState): NodeError
    requires !InRange(s)
  {
    if s.plan == [] then EmptyPlan else IndexOutOfRange(s.currentIdx, |s.plan|)
  }
}

module ExecutorNode {
  import opened State
  import opened NodeTypes
  import opened RollingSummary

  /** What a runner reports about one call; the text is already trimmed. */
  datatype RunResult = RunResult(
    text: Text,
    model: string,
    input: int,
    uncached: int,
    cacheRead: int,
    cacheCreation: int,
    output: int,
    cost: real,
    walking: Option<Walking>)
  {
    /** The budget charge: full input volume plus output. */
    function TokenVolume(): int {
      (if input == 0 then uncached + cacheRead + cacheCreation else input) + output
    }

    function Reported(): Counters {
      Counters(input, uncached, cacheRead, cacheCreation, output, cost, 0)
    }

    /** The reported input is not zero while one of its components is not. */
    predicate ReportsInput() {
      input != 0 || uncached + cacheRead + cacheCreation == 0
    }
  }

  datatype RunAnswer = RunAnswer(res: RunResult, err: Option<Text>)

  function WithWalking(u: StateUpdate, ws: Option<Walking>): StateUpdate {
    if ws.None? then u
    else if !ws.value.enabled then u.(clearWalking := true, walking := None)
    else u.(walking := ws)
  }

  function AppendSummary(cfg: Config, accumulated: Text, result: Text): Text {
    Appended(accumulated, Conclusion(cfg.extract(result)))
  }

  function Charged(u: StateUpdate, res: RunResult): StateUpdate {
    Charge(u, "executor", res.model, res.Reported(), res.TokenVolume())
  }

  const DAY := 24 * 60 * 60 * 1_000_000_000

  function PauseInterrupt(idx: int, now: int): Interrupt {
    Interrupt(0, Executor, Executor, Some(idx), "subtask_failure_pause", now, Some(now + DAY))
  }

  function Pause(s: HermesState, res: RunResult, errText: Text, now: int): NodeOutput
    requires InRange(s)
  {
    var sub := s.plan[s.currentIdx];
    var spent := sub.(tokensUsed := sub.tokensUsed + res.TokenVolume(), attempts := sub.attempts + 1,
                      result := errText);
    var u := NO_UPDATE.(plan := Some(s.plan[s.currentIdx := spent]),
                        interrupt := Some(PauseInterrupt(s.currentIdx, now)));
    NodeOutput([Charged(u, res)], Approval, "subtask_failure_pause", false)
  }

  function HandOff(s: HermesState, res: RunResult): NodeOutput
    requires InRange(s)
  {
    var sub := s.plan[s.currentIdx];
    var candidate := sub.(result := res.text, tokensUsed := sub.tokensUsed + res.TokenVolume(),
                          attempts := sub.attempts + 1, strictRetryFeedback := []);
    var u := NO_UPDATE.(plan := Some(s.plan[s.currentIdx := candidate]));
    NodeOutput([WithWalking(Charged(u, res), res.walking)], StrictReview, "subtask_candidate_for_strict_review", false)
  }

  function Finish(cfg: Config, s: HermesState, res: RunResult, status: SubTaskStatus, text: Text,
                  reason: string): NodeOutput
    requires InRange(s)
  {
    var idx := s.currentIdx;
    var sub := s.plan[idx];
    var done := sub.(status := status, result := text, tokensUsed := sub.tokensUsed + res.TokenVolume(),
                     attempts := sub.attempts + 1);
    var u := Finalise(s.plan, idx, done);
    var u' := if status == SubDone && text != []
              then u.(accumulated := Some(AppendSummary(cfg, s.accumulated, text))) else u;
    NodeOutput([WithWalking(Charged(u', res), res.walking)], StepAfter(cfg, idx + 1, |s.plan|), reason, false)
  }

  function Handle(cfg: Config, s: HermesState, answer: RunAnswer, now: int): Result<NodeOutput, NodeError> {
    if !InRange(s) then Err(RangeError(s))
    else if AlreadyDone(s.plan[s.currentIdx]) then
      Ok(NodeOutput([NO_UPDATE.(currentIdx := Some(s.currentIdx + 1))],
                    StepAfter(cfg, s.currentIdx + 1, |s.plan|), "subtask_already_done", false))
    else match answer.err
      case Some(errText) =>
        if cfg.failurePause then Ok(Pause(s, answer.res, errText, now))
        else Ok(Finish(cfg, s, answer.res, SubFailed, errText, "subtask_failed"))
      case None =>
        if cfg.strictReview then Ok(HandOff(s, answer.res))
        else Ok(Finish(cfg, s, answer.res, SubDone, answer.res.text, "subtask_done"))
  }
}

module StrictReviewNode {
  import opened State
  import opened NodeTypes
  import ExecutorNode

  datatype ReviewResult = ReviewResult(
    verdict: string,
    feedback: Text,
    model: string,
    input: int,
    output: int,
    cost: real)

  function Charged(u: StateUpdate, res: ReviewResult): StateUpdate {
    Charge(u, "reviewer_strict", res.model, PlainCounters(res.input, res.output, res.cost), res.input + res.output)
  }

  function PartialResult(original: Text, feedback: Text): Text {
    Ascii("PARTIAL")
    + (if original != [] then [NEWLINE] + original else [])
    + (if feedback != [] then Ascii("\n\nReviewer feedback:\n") + feedback else [])
  }

  /** Accept the candidate: Done, its text joins the summary. */
  function Accept(cfg: Config, s: HermesState): StateUpdate
    requires InRange(s)
  {
    var done := s.plan[s.currentIdx].(status := SubDone, strictRetryFeedback := []);
    var u := Finalise(s.plan, s.currentIdx, done);
    if done.result != []
    then u.(accumulated := Some(ExecutorNode.AppendSummary(cfg, s.accumulated, done.result))) else u
  }

  /** A block with attempts left: the same entry runs again, with the feedback. */
  function SendBack(s: HermesState, res: ReviewResult): NodeOutput
    requires InRange(s)
  {
    var idx := s.currentIdx;
    var u := NO_UPDATE.(plan := Some(s.plan[idx := s.plan[idx].(strictRetryFeedback := res.feedback)]));
    NodeOutput([Charged(u, res)], Executor, "strict_review_block_retry", false)
  }

  /** The entry leaves the reviewer with a final status. */
  function Advance(cfg: Config, s: HermesState, res: ReviewResult, final: SubTask, reason: string): NodeOutput
    requires InRange(s)
  {
    NodeOutput([Charged(Finalise(s.plan, s.currentIdx, final), res)],
               StepAfter(cfg, s.currentIdx + 1, |s.plan|), reason, false)
  }

  /** A block with none left. */
  function Skipped(sub: SubTask, res: ReviewResult): SubTask {
    sub.(status := SubSkipped, result := PartialResult(sub.result, res.feedback), strictRetryFeedback := [])
  }

  function Failed(sub: SubTask, res: ReviewResult): SubTask {
    sub.(status := SubFailed, result := if res.feedback != [] then res.feedback else sub.result,
         strictRetryFeedback := [])
  }

  /** The candidate passes; the answer is None when the reviewer call itself failed. */
  function Pass(cfg: Config, s: HermesState, answer: Option<ReviewResult>): NodeOutput
    requires InRange(s)
  {
    var onward := StepAfter(cfg, s.currentIdx + 1, |s.plan|);
    match answer
    case None => NodeOutput([Accept(cfg, s)], onward, "strict_review_reviewer_error_accept", false)
    case Some(res) => NodeOutput([Charged(Accept(cfg, s), res)], onward, "strict_review_pass", false)
  }

  function Handle(cfg: Config, s: HermesState, answer: Option<ReviewResult>): Result<NodeOutput, NodeError> {
    if !InRange(s) then Err(RangeError(s))
    else
      var sub := s.plan[s.currentIdx];
      match answer
      case None => Ok(Pass(cfg, s, answer))
      case Some(res) =>
        if res.verdict == "block" && sub.attempts < cfg.maxRetriesPerSub then Ok(SendBack(s, res))
        else if res.verdict == "block" then
          Ok(Advance(cfg, s, res, Skipped(sub, res), "strict_review_block_budget_exhausted"))
        else if res.verdict == "fail" then Ok(Advance(cfg, s, res, Failed(sub, res), "strict_review_fail"))
        else Ok(Pass(cfg, s, answer))
  }
}

module ApprovalNode {
  import opened State
  import opened NodeTypes

  function Handle(cfg: Config, s: HermesState): Result<NodeOutput, NodeError> {
    if s.interrupt.Some? then Ok(NodeOutput([], Approval, "approval_pending", true))
    else if s.status == TaskFailed then Ok(NodeOutput([], Terminal, "approval_resolved_abort", false))
    else if s.plan == [] then Err(EmptyPlan)
    else if s.currentIdx < 0 || s.currentIdx > |s.plan| then Err(IndexOutOfRange(s.currentIdx, |s.plan|))
    else if s.currentIdx >= |s.plan| then
      Ok(NodeOutput([], if cfg.reviewPerTask then Reviewer else Terminal, "approval_resolved_plan_complete", false))
    else Ok(NodeOutput([], Executor, "approval_resolved_continue", false))
  }
}

module ReviewerNode {
  import opened State
  import opened NodeTypes

  datatype TaskReviewResult = TaskReviewResult(
    verdict: string,
    replan: bool,
    model: string,
    input: int,
    output: int,
    cost: real)

  function Charged(u: StateUpdate, res: TaskReviewResult): StateUpdate {
    Charge(u, "reviewer", res.model, PlainCounters(res.input, res.output, res.cost), res.input + res.output)
  }

  /** The answer is None when the reviewer call itself failed. */
  function Handle(answer: Option<TaskReviewResult>): NodeOutput {
    match answer
    case None => NodeOutput([], Terminal, "reviewer_error_accept", false)
    case Some(res) =>
      var u := Charged(NO_UPDATE, res);
      var telemetry := if u.modelUsages != [] || u.phaseUsages != [] || u.tokenUsageDelta != 0 then [u] else [];
      if res.verdict == "block" then
        if res.replan then NodeOutput(telemetry, ReplanSetup, "reviewer_block_replan", false)
        else NodeOutput(telemetry, Terminal, "reviewer_block_terminal", false)
      else if res.verdict == "fail" then
        NodeOutput([u.(status := Some(TaskFailed))], Terminal, "reviewer_fail", false)
      else NodeOutput(telemetry, Terminal, "reviewer_pass", false)
  }
}

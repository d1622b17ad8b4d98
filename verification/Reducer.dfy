/**
  The reducer: merging a batch of node writes into the next state, and collapsing
  the batch to the single update that the snapshot records.
 */
module Reducer {
  import opened State
  import Ledger
  import ResultMerge

  /** Deltas are joined by a newline unless one is already there. */
  function AppendDelta(current: Text, delta: Text): Text {
    if current == [] then delta
    else if delta == [] then current
    else if current[|current| - 1] == NEWLINE then current + delta
    else current + [NEWLINE] + delta
  }

  /** append([]T(nil), plan...): an empty plan copies to nil, "no write". */
  function CopyPlan(plan: seq<SubTask>): Option<seq<SubTask>> {
    if plan == [] then None else Some(plan)
  }

  function LastWrite<T>(earlier: Option<T>, later: Option<T>): Option<T> {
    if later.Some? then later else earlier
  }

  /** What the reducer holds while it walks a batch: fields already merged, writes still pending. */
  datatype Batch = Batch(
    next: HermesState,
    status: Option<TaskStatus>,
    currentIdx: Option<int>,
    plan: Option<seq<SubTask>>,
    githubIssue: Option<int>,
    results: seq<SubTaskResult>)

  function Start(current: HermesState): Batch {
    Batch(current, None, None, None, None, [])
  }

  /** The fields an update writes at once; the ledgers are passed in already merged. */
  function WithWrites(s: HermesState, u: StateUpdate, modelUsages: seq<ModelUsage>,
                      phaseUsages: seq<PhaseUsage>): HermesState {
    s.(accumulated := AppendDelta(if u.accumulated.Some? then u.accumulated.value else s.accumulated,
                                  u.accumulatedDelta),
       artifacts := s.artifacts + u.artifacts,
       modelUsages := modelUsages,
       phaseUsages := phaseUsages,
       budget := s.budget.(usedTokens := s.budget.usedTokens + u.tokenUsageDelta,
                           startedAt := LastWrite(s.budget.startedAt, u.budgetStartedAt)),
       plannerSession := if u.plannerSession.Some? then u.plannerSession.value else s.plannerSession,
       executorSession := if u.executorSession.Some? then u.executorSession.value else s.executorSession,
       interrupt := LastWrite(if u.clearInterrupt then None else s.interrupt, u.interrupt),
       errors := s.errors + u.errors,
       replan := LastWrite(if u.clearReplan then None else s.replan, u.replan),
       walking := LastWrite(if u.clearWalking then None else s.walking, u.walking))
  }

  function MergeFields(s: HermesState, u: StateUpdate): HermesState {
    WithWrites(s, u, Ledger.Merged(s.modelUsages, u.modelUsages), Ledger.Merged(s.phaseUsages, u.phaseUsages))
  }

  function Absorb(p: Batch, u: StateUpdate): Batch {
    Batch(MergeFields(p.next, u),
            LastWrite(p.status, u.status),
            LastWrite(p.currentIdx, u.currentIdx),
            if u.plan.Some? then CopyPlan(u.plan.value) else p.plan,
            LastWrite(p.githubIssue, u.githubIssue),
            p.results + u.subTaskResults)
  }

  function AbsorbAll(current: HermesState, updates: seq<StateUpdate>): Batch
    decreases |updates|
  {
    if updates == [] then Start(current)
    else Absorb(AbsorbAll(current, updates[..|updates| - 1]), updates[|updates| - 1])
  }

  function Settle(p: Batch): HermesState {
    p.next.(status := if p.status.Some? then p.status.value else p.next.status,
            currentIdx := if p.currentIdx.Some? then p.currentIdx.value else p.next.currentIdx,
            plan := if p.plan.Some? then p.plan.value else p.next.plan,
            subTaskResults :=
              if p.results != [] then ResultMerge.MergedResults(p.next.subTaskResults, p.results)
              else p.next.subTaskResults,
            githubIssue := if p.githubIssue.Some? then p.githubIssue.value else p.next.githubIssue)
  }

  datatype ReduceError = InvalidTransition(from: TaskStatus, to: TaskStatus)

  /** The specification of the reducer. */
  function Reduced(current: HermesState, updates: seq<StateUpdate>): Result<HermesState, ReduceError> {
    var p := AbsorbAll(current, updates);
    if p.status.Some? && !ValidTransition(p.next.status, p.status.value)
    then Err(InvalidTransition(p.next.status, p.status.value))
    else Ok(Settle(p))
  }

  /** The reducer as a loop over the batch. */
  method ApplyStateUpdates(current: HermesState, updates: seq<StateUpdate>)
    returns (r: Result<HermesState, ReduceError>)
    ensures r == Reduced(current, updates)
  {
    var next := current;
    if updates == [] {
      return Ok(next);
    }
    var status: Option<TaskStatus> := None;
    var currentIdx: Option<int> := None;
    var plan: Option<seq<SubTask>> := None;
    var githubIssue: Option<int> := None;
    var results: seq<SubTaskResult> := [];
    for i := 0 to |updates|
      invariant AbsorbAll(current, updates[..i]) == Batch(next, status, currentIdx, plan, githubIssue, results)
    {
      var u := updates[i];
      assert updates[..i + 1][..i] == updates[..i];
      status := LastWrite(status, u.status);
      currentIdx := LastWrite(currentIdx, u.currentIdx);
      plan := if u.plan.Some? then CopyPlan(u.plan.value) else plan;
      githubIssue := LastWrite(githubIssue, u.githubIssue);
      results := results + u.subTaskResults;
      var modelUsages := Ledger.MergeUsages(next.modelUsages, u.modelUsages);
      var phaseUsages := Ledger.MergeUsages(next.phaseUsages, u.phaseUsages);
      next := WithWrites(next, u, modelUsages, phaseUsages);
    }
    assert updates[..|updates|] == updates;
    if status.Some? {
      if !ValidTransition(next.status, status.value) {
        return Err(InvalidTransition(next.status, status.value));
      }
      next := next.(status := status.value);
    }
    if currentIdx.Some? { next := next.(currentIdx := currentIdx.value); }
    if plan.Some? { next := next.(plan := plan.value); }
    if results != [] {
      var merged := ResultMerge.MergeSubTaskResults(next.subTaskResults, results);
      next := next.(subTaskResults := merged);
    }
    if githubIssue.Some? { next := next.(githubIssue := githubIssue.value); }
    return Ok(next);
  }

  // ---------- Collapsing a batch ----------

  function CollapseOne(c: StateUpdate, u: StateUpdate): StateUpdate {
    StateUpdate(
      LastWrite(c.status, u.status),
      LastWrite(c.currentIdx, u.currentIdx),
      if u.plan.Some? then CopyPlan(u.plan.value) else c.plan,
      LastWrite(c.accumulated, u.accumulated),
      AppendDelta(c.accumulatedDelta, u.accumulatedDelta),
      c.artifacts + u.artifacts,
      c.modelUsages + u.modelUsages,
      c.phaseUsages + u.phaseUsages,
      c.tokenUsageDelta + u.tokenUsageDelta,
      LastWrite(c.budgetStartedAt, u.budgetStartedAt),
      LastWrite(c.plannerSession, u.plannerSession),
      LastWrite(c.executorSession, u.executorSession),
      c.subTaskResults + u.subTaskResults,
      if u.interrupt.Some? then u.interrupt else if u.clearInterrupt then None else c.interrupt,
      if u.interrupt.Some? then false else u.clearInterrupt || c.clearInterrupt,
      c.errors + u.errors,
      LastWrite(c.githubIssue, u.githubIssue),
      if u.replan.Some? then u.replan else if u.clearReplan then None else c.replan,
      if u.replan.Some? then false else u.clearReplan || c.clearReplan,
      if u.walking.Some? then u.walking else if u.clearWalking then None else c.walking,
      if u.walking.Some? then false else u.clearWalking || c.clearWalking)
  }

  function Collapsed(updates: seq<StateUpdate>): StateUpdate
    decreases |updates|
  {
    if updates == [] then NO_UPDATE
    else CollapseOne(Collapsed(updates[..|updates| - 1]), updates[|updates| - 1])
  }

  /** The collapsing loop. */
  method CollapseStateUpdates(updates: seq<StateUpdate>) returns (c: StateUpdate)
    ensures c == Collapsed(updates)
  {
    c := NO_UPDATE;
    for i := 0 to |updates|
      invariant c == Collapsed(updates[..i])
    {
      assert updates[..i + 1][..i] == updates[..i];
      c := CollapseOne(c, updates[i]);
    }
    assert updates[..|updates|] == updates;
  }
}

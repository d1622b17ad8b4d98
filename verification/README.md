# Hermes: the durable runtime and the issue checklist, verified

Hermes turns a goal (often a GitHub issue) into a plan of sub-tasks and executes the plan through a durable
graph. A `Walker` reads a task's latest snapshot, checks the interrupt and budget gates, dispatches the node
for the recorded next step (planner, executor, strict reviewer, task reviewer, replan setup, approval), and
commits the node's partial updates through a reducer into an append-only history. Operators resolve
interrupts, processes restart, callers cancel. Around the runtime stand the rolling summary that is fed to
the executor, the walking-agent session ladder, and the issue checklist: parsed out of a Markdown body,
advertised to the planner, checked by the planner's gate, ticked when sub-tasks finish, parsed again.

This project models that behaviour in Dafny and proves what holds of all of its runs. Planner, runner,
reviewers, clock, cancellation and panics are arbitrary inputs of each turn; nothing is assumed of them
unless a lemma says so in a `requires`.

## How it is laid out

| file | contents |
|---|---|
| `State.dfy`, `Strings.dfy`, `Utf8.dfy` | records, partial updates, lifecycle rules; string operations; UTF-8 (section 3 of RFC 3629) |
| `Ledger.dfy`, `ResultMerge.dfy`, `Reducer.dfy`, `Collapse.dfy` | the reducer and its merges as loops, proven against specification functions; collapsing a batch |
| `Store.dfy` | `MemoryTaskStore` as a class; one commit; replay of the log |
| `RollingSummary.dfy` | `AppendResult` and the window it keeps over the whole log |
| `Nodes.dfy`, `Replanning.dfy` | the six nodes; the partial-retry split; the merge of preserved work; the replan coordinator |
| `Runtime.dfy`, `Events.dfy` | one turn; everything that can happen to a task, as events |
| `PlanProgress.dfy`, `TaskInvariants.dfy`, `PlanRuns.dfy` | invariants over all runs: progress, terminal discipline, ledgers, budget, finished work, results |
| `TaskAccounts.dfy` | which fields an event can touch; every sub-task's attempts, tokens and result explained by the runner's answers; the summary over whole runs |
| `Restarts.dfy` | a run under two memories of the coordinator: exactly when a restart can be told |
| `Termination.dfy`, `Walker.dfy`, `DispatchBound.dfy` | the rank that every dispatch lowers; `Walker.Run`, uncapped; the bound on its turns |
| `WalkingLadder.dfy` | the session ladder in its two versions |
| `RunnerCalls.dfy` | over whole runs: what is charged beyond the books, call by call; the walking state as the ladder's |
| `Checklist.dfy`, `ChecklistSync.dfy`, `ChecklistCoverage.dfy` | parsing, ticking and syncing the checklist; the goal, the planner's gate, and what a plan that passes it completes |
| `PlanSections.dfy`, `StripShifts.dfy`, `IssueLifecycle.dfy` | the plan section in the body; what stripping it does to the items' ids; an issue from first parse to last sync |
| `Mapping.dfy` | the mapping of sub-tasks to items |

The pattern is the same throughout. A loop of the source is a method, proven equal to a specification
function or to a declarative predicate; the results are lemmas about the specification. A run of a task is a
sequence of `Events.Event`s (`Events.RunIsEvents` shows that the walker's own runs are), and
`Events.HappenIsStep` ties each event on the stored log to one step on the
pair (state, next step), so that an invariant of the steps is an invariant of every stored history.

## What was found

Where the code and its comments or its evident intent part, the model follows the code, a lemma shows the
point, and another says exactly when the code does what is expected.

- Collapsing a batch of updates moves a delta that precedes a replacement behind it. The recorded update
  replays to the committed state iff no delta precedes a replacement (`Collapse.CollapsePreservesMeaning`).
  No producer emits such a batch (`Events.AttemptIsPlain`), so real histories replay (`Events.RunsReplay`).
- A failure pause drops the walking reset that the failed call reported, so a retry may reuse the session that
  has just failed (`WalkingLadder.PausedFailureReuses`). The two ladders agree on a call exactly under the
  condition of `WalkingLadder.CallAgreesExactly`.
- A task review with verdict "fail" ends the task even when the retry policy asks for another attempt; only
  "block" can lead to a replan (`TerminalDiscipline.ReviewOutcome`; the comment at engine/task_retry.go:25-27
  says that "fail" always retries).
- An abort leaves the interrupt pending; a later retry sends the failed task back to the executor, where its
  status stays failed (`TerminalDiscipline.AbortThenRetryReopens`, `TerminalDiscipline.TerminalStepLeftExactly`).
- On track, a resolution leads into the executor's range error exactly when it skips the last sub-task, or retries
  a cancellation with no open sub-task left: the plan is used up, or there is none yet because the cancellation came
  before the first planner turn (`PlanProgress.GuardFiresExactly`). The progress invariants hold through such
  resolutions too (`PlanProgress.RunsStaySettled`).
- The ids of a merged replan can clash: a made-up id may be taken, a padded id may repeat, and with nothing
  preserved nothing is checked (`PlanMerge.MergedIDsDistinctExactly`, `PlanMerge.SyntheticClashExample`). Distinct
  preserved ids, without padding and without ids of the made-up form, always merge to distinct ids
  (`PlanMerge.OrdinaryIDsMerge`).
- A runner that reports input components but no input total is charged more than the ledgers record, and only
  such a runner is (`LedgerBalance.ExecutorChargeExactly`). Over a run the charge exceeds the books by exactly what
  its committed runner calls hide in this way (`ChargeAccounts.RunsAccount`).
- A restart loses the coordinator's memory: the recorded review, so that a replan setup records a no-op, and the
  number of attempts, so that the retry limit starts over (`RestartEquivalence.RestartResetsRetries`). As a coordinator
  is built anew for every run of the graph (engine/graph_bridge.go:51, :336), the replan limit holds for one run of
  the walker, not for the task. A restarted run that is cancelled at once records nothing
  (`RestartEquivalence.RestartLosesCancellation`). Nothing else tells a restarted run from an uncut one
  (`RestartEquivalence.RestartInvisibleExactly`).
- `AppendResult`'s byte trigger for compression never fires: the text has just been cut to half of it
  (`RollingSummary.AppendResult`).
- A single direct-execution task bypasses the checklist gate (`ChecklistCoverage.DirectPlanSkipsGate`).
- Stripping a plan section in the middle of a body joins the following heading to the text before the section;
  the comment at hermes/github.go:1029 says that the newline is kept (`PlanSections.FollowingHeadingIsJoined`).
- With it the items below the section move up, and as their ids are line numbers, the ids that the goal advertised
  no longer name them, or name others: a sync can tick an item that nobody worked on
  (`IssueLifecycle.StaleIDTicksAnother`). The strip keeps every id iff no item stands below the first plan section
  (`StripShifts.StripKeepsIDsExactly`). A sync ticks exactly what was declared iff the strip keeps the open items' ids
  (`IssueLifecycle.SyncTicksRightExactly`), and the planner's gate leads to a complete issue iff the goal advertised
  what the stripped body leaves unchecked (`IssueLifecycle.PlannedIssueCompletesExactly`).
- A body without a section still loses its trailing newlines (`PlanSections.StripTwice`; the comment at
  hermes/github.go:1009-1010 says it is returned unchanged).
- A second plan written over a first one replaces it exactly when the first section holds no level-2 heading but
  plan headers (`PlanSections.WriteReplacesExactly`).

## Model

| member | source | states |
|---|---|---|
| Ledger.MergeUsages | hermes/reducer.go:231-294 | the merge loop with its key index yields the rows of `Merged`, for models and for phases |
| Ledger.MergeConserves | hermes/reducer.go:231-294 | for any group of keys, every counter's total after a merge is the total before plus the normalized deltas |
| Ledger.MergeConservesVolume | hermes/reducer.go:231-261 | recorded input plus output grows by exactly what is merged in |
| Ledger.MergeKeepsRows | hermes/reducer.go:231-294 | rows keep their position, a key is never listed twice |
| Ledger.MergeConcat | hermes/reducer.go:231-294 | merging two batches in turn is merging their concatenation |
| ResultMerge.MergeSubTaskResults | hermes/reducer.go:296-329 | the merge with its position, batch and order tables yields `MergedResults` |
| ResultMerge.MergeLookup | hermes/reducer.go:296-344 | after any batch a lookup finds the last report for its key, merged over what was on record; keys without a report keep their entry |
| ResultMerge.MergeDistinct | hermes/reducer.go:296-329 | after any batch no key is listed twice |
| ResultMerge.SortSorts | hermes/reducer.go:320-327 | new results are appended in index order and are exactly the new ones |
| Reducer.ApplyStateUpdates | hermes/reducer.go:13-113 | the reducer loop is the specification `Reduced`: merged at once or last write, rejected on an invalid status transition |
| Reducer.CollapseStateUpdates | hermes/reducer.go:142-211 | the collapsing loop is the specification `Collapsed` |
| Collapse.AppendAssociates | hermes/reducer.go:213-229 | appending deltas is associative |
| Collapse.CollapseAgrees | hermes/reducer.go:142-211 | for every batch and state the collapsed update agrees with the batch on every field but the accumulated text |
| Collapse.CollapsePreservesMeaning | hermes/reducer.go:13-211 | a batch and its collapse are rejected alike, and yield the same state iff no delta precedes a replacement |
| Store.MemoryTaskStore.CreateTask | hermes/memory_store.go:24-37 | stores the row under its id or rejects an empty id, and touches no history |
| Store.MemoryTaskStore.CreateSnapshot | hermes/memory_store.go:200-222 | appends the snapshot with its default id, or rejects a duplicate and changes nothing |
| Store.MemoryTaskStore.GetLatestSnapshot | hermes/memory_store.go:224-232 | returns the last snapshot, or an error for an empty history |
| Store.MemoryTaskStore.CommitRuntimeStep | hermes/memory_store.go:266-322 | on success the row and the history are those of `Committed`; on any error nothing changes |
| Store.FindDuplicate | hermes/memory_store.go:293-299 | finds a snapshot with the same id or step iff there is one |
| Store.RowRoundTrip | hermes/store.go:2023-2047 | writing a state to the row and reading it back with the carry-forward is the identity |
| Store.CommitStaysLinear | hermes/memory_store.go:266-322 | on a linear history the duplicate check never fires, and a commit extends the parent chain with a larger step |
| Store.CommitSyncs | hermes/memory_store.go:266-322 | after a commit row and snapshot agree, and the state is the reduced seed |
| Store.CommitReplaysExactly | hermes/memory_store.go:266-322 | a commit keeps the log replayable iff its batch puts replacements first |
| Store.LogReplays | hermes/memory_store.go:266-322 | for every sequence of such commits to any linear log, even one without a snapshot, the history grows as a linear chain, and folding the recorded writes over the state the first commit starts from gives every later state |
| Store.ReplayPrefix | hermes/snapshot.go:106-132 | replay reaches each intermediate snapshot |
| RollingSummary.Trim | hermes/accumulated.go:200-210 | the cut never leaves more than the cap |
| RollingSummary.AppendResult | hermes/accumulated.go:189-214 | appends the conclusion and trims; compression is requested iff something was appended and enough sub-tasks are complete |
| RollingSummary.ConclusionBounded | hermes/accumulated.go:176-182 | a conclusion is valid UTF-8 of at most 4·600+3 bytes, which is under the cap |
| RollingSummary.SummaryIsWindow | hermes/accumulated.go:189-214 | after any appends the text is at most 3072 bytes, is the longest line-suffix of the full log under the cap (or all of it), and ends with the whole newest conclusion |
| RollingSummary.SummaryStaysValid | hermes/accumulated.go:176-214 | no append cuts a UTF-8 sequence |
| PartialRetry.BuildPartialRetryPlan | engine/task_retry.go:105-139 | the one-pass split yields `Split`, preserved summary included |
| PartialRetry.SplitInOrder | engine/task_retry.go:105-139 | each part lists its entries at increasing positions of the old plan |
| PartialRetry.SplitCovers | engine/task_retry.go:105-139 | every position of the old plan is in exactly one part |
| PlanMerge.MergePreservedSubTasks | engine/graph/replan_setup_node.go:51-73 | the loop with its seen table yields `Merged` |
| PlanMerge.MergedIDsDistinctExactly | engine/graph/replan_setup_node.go:45-73 | merged ids are distinct iff, in the inputs, the preserved ids are, no entry that gives up its id meets its made-up one among the preserved or the ids kept earlier, and no kept padded id repeats an earlier id; with nothing preserved, iff the planner's ids are |
| PlanMerge.OrdinaryIDsMerge | engine/graph/replan_setup_node.go:45-73 | distinct preserved ids, no padded id and no id of the made-up form always merge to distinct ids |
| PlanMerge.SyntheticClashExample | engine/graph/replan_setup_node.go:57-70 | a concrete plan whose made-up id clashes with one the planner chose |
| Events.PlainIsSingle | engine/graph/runtime.go:300-330 | every commit of the runtime is one write, and puts replacements first |
| Events.AttemptIsPlain | engine/graph/runtime.go:205-345 | no turn, cancellation, resolution or orphan recovery emits a batch that the collapse would reorder |
| Events.CauseExplains | engine/graph/runtime.go:205-345 | what an event does is the consequence of its cause: nothing, an interrupt, an ending, a dispatched node, a resolution |
| Events.HappenIsStep | hermes/memory_store.go:266-322 | one event on the stored log keeps it linear and replayable, appends at most one snapshot, and moves the view as `Step` |
| Events.RunsReplay | hermes/memory_store.go:266-322 | the same for every sequence of events, restarts included |
| Events.RunsReplayToEveryState | hermes/reducer.go:397-414 | folding the recorded writes over the first snapshot gives every state of the run |
| Events.IterateIsTurn | engine/graph/runtime.go:226-343 | a turn of the walker is the event Turning |
| Events.RunIsEvents | engine/graph/runtime.go:205-345 | whatever a run of the walker does to the log is a sequence of events |
| Events.SnapshotsAreViews | engine/graph/runtime.go:205-345 | every snapshot a run appends is the view after some prefix of its events |
| Events.SeedIsSound | engine/graph_bridge.go:528-575 | a seeded history is linear, synced and replayable |
| PlanProgress.EventKeeps | engine/graph/executor_node.go:113-250 | any event keeps the pointer in the plan or at its end and everything before it resolved; outside planner turns it touches one entry and moves the pointer by at most one |
| PlanProgress.RunsStaySettled | engine/graph/strict_review_node.go:95-255 | the same in every reachable state, whatever happens; a review and an interrupt that names an entry find it open at the pointer |
| PlanProgress.RunsStayOnTrack | engine/graph/strict_review_node.go:95-255 | in runs without a skip of the last sub-task or a retry with no sub-task left, every step also finds the pointer where it needs it |
| PlanProgress.SeedOnTrack | engine/graph_bridge.go:528-575 | a fresh task starts on track |
| PlanProgress.GuardsNeverFire | engine/graph/executor_node.go:118-127 | on track, no turn ends in a node's range error |
| PlanProgress.GuardFiresExactly | hermes/store.go:999-1061 | on track, a resolution leads the next dispatch into the range error iff it skips the last sub-task or retries a cancellation with no sub-task left |
| Termination.DispatchLowers | engine/graph/runtime.go:205-345 | every dispatch that neither ends nor halts lowers (replans left, phase, plan work) |
| WalkerLoop.TurnLowers | engine/graph/runtime.go:205-345 | the same for a whole turn against the store |
| WalkerLoop.Walker.Run | engine/graph/runtime.go:205-345 | the loop terminates without a step cap, with or without a row for the task; it leaves the log and error of the specified run, reports the least number of turns that run takes, and the cap's own error exactly when the cap bites |
| WalkerLoop.Walker.TakeTurn | engine/graph/runtime.go:226-343 | one turn against the store is the specified turn, that of a task without a row included |
| WalkerLoop.Walker.RecordCancellation | engine/graph/runtime.go:382-413 | a cancellation is recorded iff a snapshot had been read; it ends the run as specified |
| WalkerLoop.RowlessRun | hermes/memory_store.go:266-272 | a run for a task without a row keeps its log and ends with its first turn, or at once when cancelled |
| DispatchBound.FromPlannerClosed | engine/graph_bridge.go:137-149 | the bound in closed form: (r+1)·(plan cost+2)+r |
| DispatchBound.RunStops | engine/graph/runtime.go:205-345 | a run with more turns than its bound has stopped |
| DispatchBound.SeededRunStops | engine/graph/runtime.go:205-345 | with a plan-size cap N, a seeded task stops within (A+1)·(N·max(2,2M)+2)+A+1 turns, whatever is answered, as long as planned sub-tasks do not start at negative attempts |
| DispatchBound.ReportedTurnsBounded | engine/graph/runtime.go:205-345 | the turns that `Walker.Run` reports for a seeded task are within that bound |
| TerminalDiscipline.RunsKeepDiscipline | engine/graph/runtime.go:310-314 | in every history a terminal step has a terminal status, and a terminal status never changes |
| TerminalDiscipline.TerminalStatusIsFinal | hermes/reducer.go:93-98 | no accepted batch moves a task out of a terminal status |
| TerminalDiscipline.TerminalRunAppendsNothing | engine/graph/runtime.go:236-238 | a run on a terminal snapshot returns the log as it is |
| TerminalDiscipline.TerminalStepLeftExactly | hermes/store.go:973-1061 | the terminal step is left iff a still pending interrupt is retried or validly skipped |
| TerminalDiscipline.AbortThenRetryReopens | hermes/store.go:927-946 | an abort keeps the interrupt, and a later retry reopens work on the failed task |
| TerminalDiscipline.ReviewOutcome | engine/graph_bridge.go:758-829 | a replan follows iff the verdict is "block" and the policy retries; "fail" ends the task failed |
| LedgerBalance.RunsKeepBalance | engine/graph/executor_node.go:221-242 | in every run, per model, every counter equals its sum over phases, and with honest runners the charge grows by the recorded volume |
| LedgerBalance.ExecutorChargeExactly | engine/graph/executor_node.go:40-46 | a booked call is charged what is recorded iff its input total is non-zero or all its components add to zero |
| LedgerBalance.DispatchBooks | engine/graph/strict_review_node.go:261-282 | every node books a call once per ledger |
| ChargeAccounts.HiddenExactly | engine/graph/executor_node.go:40-46 | a booked call hides nothing iff it reports its input, and else exactly its input components |
| ChargeAccounts.RunsAccount | engine/graph/executor_node.go:221-242 | over any run the charge minus the recorded volume grows by exactly what the committed runner calls hide |
| BudgetBound.OvershootBounded | engine/graph/runtime.go:239-260 | usage never exceeds max(initial, cap−1+D) when no answer costs more than D |
| BudgetBound.DispatchIsGated | engine/graph/runtime.go:236-260 | no node is dispatched over budget, and on an interrupted task only the approval node is |
| FinishedWork.EventKeepsDone | engine/graph/executor_node.go:129-131 | outside planner turns no event, allowed or not, rewrites a done or skipped entry |
| FinishedWork.AttemptAdvances | engine/graph/executor_node.go:113-250 | between planner turns the plan keeps its length and the pointer never goes back |
| FinishedWork.PreservedThroughout | engine/graph/executor_node.go:113-131 | throughout an attempt, whatever is resolved, the preserved prefix stays and the runner is never called on it, on an interrupted task or over budget |
| FinishedWork.SetupInstalls | engine/graph/replan_setup_node.go:112-147 | the replan setup records the split of the rejected plan |
| FinishedWork.PlannerAdopts | engine/graph/planner_node.go:80-108 | the planner puts preserved work first and starts from its transcript |
| FinishedWork.ReplanAdopts | engine/graph_bridge.go:831-870 | whatever comes between the replan setup and the planner's next committed turn, that turn puts exactly the well-scored, done sub-tasks at the front of the new plan |
| FinishedWork.ReplanKeepsFinished | engine/graph/planner_node.go:80-108 | throughout the attempt that this turn opens they stay there, and the runner is never called on them |
| ResultsAgreement.ReportLands | hermes/reducer.go:296-351 | a report gives its sub-task exactly one entry with the plan's outcome |
| ResultsAgreement.AttemptStaysOnRecord | engine/graph/strict_review_node.go:217-243 | until the next planner turn, whatever is resolved, every finalised sub-task has exactly one entry, equal to the plan's status, result, tokens and attempts |
| RunFrames.EventFrame | engine/graph/runtime.go:226-343 | which fields an event can touch: sessions, walking, replan, summary, results, ledgers, errors and the budget start each change only in turns at their own steps, in a panic, or in a budget continuation |
| RunFrames.RunsKeepTask | engine/graph/runtime.go:205-345 | no run changes what the task is: identity, goal, issue, executor session, artifacts and the caps of its budget |
| AttemptAccounts.CallAccounts | engine/graph/executor_node.go:133-250 | a runner call spends one attempt and its tokens and leaves its text, and only a success finishes the entry or asks for a review |
| AttemptAccounts.OthersAreQuiet | engine/graph/strict_review_node.go:111-255 | any other event leaves the attempts and tokens of the entry at the pointer alone, and its text unless it gives the entry up; only a strict review makes it done |
| AttemptAccounts.AttemptAccountsFor | engine/graph/executor_node.go:113-250 | between planner turns a sub-task's attempts and tokens grow by exactly the runner's answers about it, and a done one has the text of the last answer, a success |
| SummaryRuns.EventTells | engine/graph/executor_node.go:209-216 | outside planner turns the summary grows by exactly the result of the sub-task that becomes done |
| SummaryRuns.AttemptSummary | hermes/accumulated.go:189-214 | over an attempt it is the rolling summary of what the finished sub-tasks reported |
| SummaryRuns.AttemptSummaryIsWindow | hermes/accumulated.go:189-214 | so it is the longest window under the cap that ends with the newest report |
| SummaryRuns.RunsKeepSummaries | hermes/accumulated.go:176-214 | in every reachable state the summary, and the one a pending replan starts from, are valid UTF-8 of at most 3072 bytes |
| SummaryRuns.SeededSummariesStaySound | engine/graph_bridge.go:528-575 | in particular from the seed on |
| RestartEquivalence.RunSplits | engine/graph/runtime.go:226-343 | a run of m+n turns is a run of m and then n more |
| RestartEquivalence.TurnSameExactly | engine/graph_bridge.go:101-149 | a turn leaves the same log with and without the coordinator's memory iff it is no replan setup with a recorded review, and no "block" review that only one of them would follow with a replan |
| RestartEquivalence.RunSameExactly | engine/graph/runtime.go:226-343 | the same for whole runs: equal histories iff no turn of the run is such a one, and then they end alike |
| RestartEquivalence.RestartInvisibleExactly | engine/graph/runtime.go:226-260 | a restart changes nothing iff it is not cancelled at once and no turn shows the lost memory |
| RestartEquivalence.CutAndRestart | engine/graph/runtime.go:315-343 | a run cut by the cap and restarted gives the history of the uncut run iff the same holds at the cut |
| RestartEquivalence.RestartLosesCancellation | engine/graph/runtime.go:208-225 | cancelled at once, the uncut run records one more snapshot than the restarted one |
| RestartEquivalence.NothingToNotice | engine/graph_bridge.go:101-149 | equal memories never show a difference, an empty coordinator among them |
| RestartEquivalence.RestartInvisible | engine/graph/runtime.go:226-343 | checked on the uncut history alone: without a recorded review at the cut, or without a replan setup and a "block" review after it, a restart not cancelled at once changes nothing |
| RestartEquivalence.SetupParts | engine/graph_bridge.go:137-149 | at a replan setup differing memories part the histories for good |
| RestartEquivalence.RestartResetsRetries | engine/graph_bridge.go:758-829 | once the replans are used up a "block" ends the run, but after a restart it opens a replan and the count starts at zero |
| RestartEquivalence.PendingApprovalChangesNothing | engine/graph/approval_node.go:57-78 | dispatching a pending approval changes no field and halts |
| WalkingLadder.Engine.Execute | engine/plan_execute.go:1927-2023 | the legacy loop's fields and decision are those of the specification |
| WalkingLadder.CallAgreesExactly | engine/graph_bridge.go:641-697 | both ladders decide alike and stay related iff no feedback-less retry would reuse and no silent success matters |
| WalkingLadder.LaddersBisimulate | engine/graph_bridge.go:641-697 | for every sequence of well-reported calls they decide alike |
| WalkingLadder.ReuseIsSafe | engine/graph_bridge.go:641-697 | a session is reused only after a success on the predicted model, with every transcript since the last fresh call under the limit |
| WalkingLadder.ExecutorRecordsWalking | engine/graph/executor_node.go:258-273 | after a call the walking state is the reported one, cleared when that is disabled, unless the call failed under failure pause or reports none: then it is the one before |
| WalkingLadder.PausedFailureReuses | engine/graph/executor_node.go:292-354 | after such a failure the next call still reuses the session |
| SessionRuns.EventWalks | engine/graph/executor_node.go:258-273 | in every event the walking state changes only by a committed runner call that did not fail under failure pause |
| SessionRuns.RunsWalkTheLadder | engine/graph_bridge.go:579-697 | with a runner that keeps the ladder, the walking state of every reachable state is that of the ladder after the calls it has seen |
| SessionRuns.RunsReuseSafely | engine/graph_bridge.go:641-697 | so in a run from a fresh state the session is reused only after a success on the predicted model, with every transcript of the reusing calls under the limit |
| Lines.SplitJoin | hermes/github.go:714-738 | splitting joined lines gives the lines back |
| Lines.JoinSplit | hermes/github.go:293-318 | joining split lines gives the body back |
| Checklist.ExtractChecklist | hermes/github.go:293-318 | the parse loop, with its running section, yields the items of `Parsed` |
| Checklist.TickReparses | hermes/github.go:832-864 | re-parsing a ticked body finds the same ids, texts, lines and sections, and exactly the chosen items newly checked |
| Checklist.TicksAreCounted | hermes/github.go:832-864 | checked items grow by the number of reported texts |
| ChecklistSync.UpdateChecklistInBody | hermes/github.go:714-738 | ticks exactly the unchecked items that match a description |
| ChecklistSync.ApplyDeclaredTicks | hermes/github.go:832-864 | ticks exactly the unchecked items whose id is declared, and reports their texts in line order |
| ChecklistSync.BuildChecklistSyncPreview | hermes/github.go:761-827 | body, reported texts and changed flag of the sync rule: declarations decide when a done sub-task has any, else descriptions |
| ChecklistSync.SyncMarks | hermes/github.go:761-864 | in either mode an item is checked after a sync iff it was checked or is picked, and is otherwise unchanged |
| ChecklistSync.SyncCounts | hermes/github.go:761-864 | checked items grow by the reported texts; none reported iff the body is unchanged |
| ChecklistSync.SyncTwice | hermes/github.go:829-864 | a second sync changes and reports nothing |
| ChecklistSync.DeclarationDrift | engine/plan_execute.go:1581-1611 | lists the declared items that are still unchecked, sorted |
| ChecklistSync.DriftExactly | engine/plan_execute.go:1581-1611 | there is drift iff some declared item is unchecked |
| ChecklistSync.NoDriftAfterSync | engine/plan_execute.go:1577-1611 | after a preview is applied there is no drift |
| Advertising.BuildGoal | hermes/github.go:411-455 | the goal lists unchecked items with their ids, and checked ones as context |
| Advertising.MarkerIsFound | hermes/planner.go:357-359 | a marker is found wherever it stands in a text |
| Advertising.GoalAdvertises | hermes/github.go:424-435 | every unchecked item's id is advertised, whatever the rest of the goal says |
| PlanningSession.ValidateChecklistDeclaration | hermes/planner.go:368-400 | lists exactly the advertised ids that no sub-task declares, each once, sorted |
| PlanningSession.PlannerSession.Plan | hermes/planner.go:213-320 | the loop ends at the first deciding attempt or at the retry limit, with the totals of the attempts made and the last named session |
| PlanningSession.AcceptedIsCovered | hermes/planner.go:338-354 | an accepted plan is not empty, and leaves advertised items undeclared only as a direct-execution task |
| ChecklistCoverage.SyncCompletesExactly | hermes/github.go:761-864 | under declarations a sync leaves nothing unchecked iff every unchecked item is declared by a done sub-task |
| ChecklistCoverage.GoalCovers | hermes/github.go:411-455 | the goal made from a body advertises all that the body leaves unchecked |
| ChecklistCoverage.GateDeclaresAll | hermes/planner.go:368-400 | a plan that passes the gate declares every unchecked item of the issue |
| ChecklistCoverage.CoverageCompletes | hermes/planner.go:361-400 | a plan that passes the gate and is all done leaves no unchecked item after the sync and re-parse, if the goal advertised what the synced body leaves unchecked |
| ChecklistCoverage.GateCompletesExactly | hermes/planner.go:361-400 | that holds of every such plan iff the goal advertised all of it |
| ChecklistCoverage.DirectPlanSkipsGate | hermes/planner.go:240-251 | a direct-execution task is accepted with unchecked items undeclared |
| ChecklistCoverage.UndeclaredTicksByText | hermes/github.go:696-738 | when such a task is done, an item is ticked iff its text matches the description |
| PlanSections.StripHermesPlanSections | hermes/github.go:1014-1039 | the loop terminates and yields `Stripped` |
| PlanSections.StripLeavesNoHeader | hermes/github.go:1014-1039 | no plan header is left |
| PlanSections.StripTwice | hermes/github.go:1006-1039 | stripping is idempotent, and a body without a header only loses trailing newlines |
| PlanSections.WritePlan | hermes/github.go:976-992 | assembles the stripped body, the header and one line per sub-task |
| PlanSections.StripExactly | hermes/github.go:1014-1039 | a stripped section leaves nothing behind iff every level-2 heading in it is a plan header |
| PlanSections.WriteReplacesExactly | hermes/github.go:976-1039 | writing a second plan over a first equals writing it alone iff the first section holds no heading but plan headers |
| PlanSections.RenderedTasksReplace | hermes/github.go:984-992 | when no rendered sub-task holds a newline followed by a level-2 heading, a later plan replaces the section |
| PlanSections.FollowingHeadingIsJoined | hermes/github.go:1024-1036 | a heading ends up on the last line before a stripped section iff the section is followed by one that is no plan header |
| PlanChecklist.PlanAddsNoItems | hermes/github.go:300-303 | a written plan without lines that start with "#" adds no item and renumbers none |
| PlanChecklist.StripKeepsItems | hermes/github.go:1014-1039 | stripping a body without plan sections keeps its checklist |
| StripShifts.MoveUp | hermes/github.go:311-316 | when lines move up, the sum of the item lines does not grow, and shrinks as soon as an item moved or went |
| StripShifts.StripSettles | hermes/github.go:1014-1039 | the whole strip, whatever the number of sections: when no cut brings an item out, either none stands below the first section and all ids and marks stay, or the line sum falls |
| StripShifts.StripKeepsIDsExactly | hermes/github.go:1014-1039 | when no cut brings an item out, stripping keeps the id of every item iff none stands below the first plan section |
| StripShifts.KnownCut | hermes/github.go:1024-1036 | a cut brings nothing out when the parse knows the heading that ends the section, and no empty box stands right before it |
| IssueLifecycle.PlannedIssueCompletes | hermes/github.go:293-864 | from goal through gate, written plan and sync: no unchecked item is left, if the goal advertised what the stripped body leaves unchecked |
| IssueLifecycle.PlannedIssueCompletesExactly | hermes/github.go:293-1039 | every plan that passes the gate completes the issue iff the goal advertised that |
| IssueLifecycle.FreshIssueCompletes | hermes/github.go:293-864 | so it does for an issue without a plan section |
| IssueLifecycle.ReplannedIssueCompletes | hermes/github.go:976-992 | so it does for an issue into which a plan has been written before |
| IssueLifecycle.ItemsAboveComplete | hermes/github.go:1014-1039 | so it does when no item stands below the first plan section and no cut brings one out |
| IssueLifecycle.SyncTicksRightExactly | hermes/github.go:829-864 | once the plan is written, a sync ticks exactly the items declared under their goal ids, whatever is declared, iff the strip keeps the open items' ids and all marks |
| IssueLifecycle.ItemsAboveTickRight | hermes/github.go:829-1039 | so it does when no item stands below the first plan section and no cut brings one out |
| IssueLifecycle.StaleIDTicksAnother | hermes/github.go:1014-1039 | below a plan section a sync for the first of two items ticks the second |
| Mapping.BestItem | issueops/checklist_mapping.go:84-107 | picks the first best-scoring free item, and reports high confidence iff it scores at least 80 and leads every other free item by 10 |
| Mapping.GreedyMapping | issueops/checklist_mapping.go:83-161 | every link is the greedy choice at its time; the unmapped lists, the confirmation flag and the state are as defined |
| Mapping.GreedySplits | issueops/checklist_mapping.go:83-145 | sub-tasks and items each split exactly into the linked, once each, and the unmapped |
| Mapping.GreedySyncedExactly | issueops/checklist_mapping.go:146-153 | "synced" iff the links pair all sub-tasks with all items and every link is high |
| DeclaredMapping.DeclaredMapping | issueops/checklist_mapping.go:173-237 | the first claim of each known id makes a link; unknown and repeated claims ask for confirmation |
| DeclaredMapping.LinkIsFirstClaim | issueops/checklist_mapping.go:181-213 | every link belongs to the sub-task that claims the id first |
| DeclaredMapping.LinkedIsClaimed | issueops/checklist_mapping.go:181-221 | with distinct ids an item is linked iff it is claimed |
| DeclaredMapping.DeclaredSyncedExactly | issueops/checklist_mapping.go:223-232 | "synced" iff every claim names an item, none twice, and every item is claimed |
| DeclaredMapping.ParsedIDsDistinct | hermes/github.go:311-316 | parsed ids are distinct |
| DeclaredMapping.BuildMapping | issueops/checklist_mapping.go:49-81 | the early exits, and the choice between the two mappings |
| DeclaredMapping.SyncedMappingCompletes | issueops/checklist_mapping.go:173-237 | a plan whose declared mapping is synced completes the checklist once all its sub-tasks are done |

## Left out

- Integers are unbounded and costs are reals; Go's int width and float rounding are not modelled.
- Timestamps other than the budget's start, the pause's expiry and the interrupt's creation; channel versions; snapshot metadata other than the reason; the ids of interrupts. They steer nothing.
- A usage row's key is a model name or a (phase, model) pair; the string that joins phase and model in the index is not modelled.
- `MemoryTaskStore` only: the SQLite store, its migrations, busy retry and the unified mirror are left out. The store's lock is left out with them: there is one writer, and the review's own telemetry commits and `commitInterruptedBoundary` are not part of the model.
- The legacy `run` and `RunFromState` loops, goroutines, callbacks, progress sinks and Telegram text; they duplicate the graph path with I/O in between.
- Planner, runner and reviewers are answers given to each turn; the runner's text comes already trimmed. Their prompts, the CLI processes and the `gh` calls are left out.
- `extractConclusion` and `pickFirstEvidenceBullets`: the conclusion's text is a parameter, only its cut and its bound are modelled. The executor model predicted for a sub-task, the planner's other quality gates and its direct-execution test are parameters too.
- The Markdown heading pattern and the plan section's case-insensitive name test are parameters of the parse; that a heading line starts with '#' is built in. The case-insensitive comparison inside the fuzzy match is a parameter, the blank-text rule is not.
- `scoreChecklistMapping` is a parameter of the greedy mapping, and notes and reasons are not recorded; links and unmapped entries are positions instead of copies.
- The goal's opening, its instructions and the issue description are arbitrary text; `BuildIssueStateSnapshot` and `stripChecklistLines` are not modelled.
- Tool hints of a sub-task, and the JSON forms of all records.
- Restarts are modelled at turn boundaries, the only points at which the walker writes.
- `ReplanSetupNode.IsNoop` reads blanks in the accumulated text as ASCII; the replan decider never produces a blank text that is not empty.
- StripShifts.StripKeepsIDsExactly: does not say what happens when a cut itself brings an item out, as it can below a plan heading in another spelling, or when a heading is joined to an empty box; items that appear can then stand where others went, and equal ids no longer mean equal items.

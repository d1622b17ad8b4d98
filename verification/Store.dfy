/**
  The in-memory task store: a task row and an append-only snapshot history per
  task. A commit reduces the current state, refreshes the row and appends one
  snapshot; what that means for the history is proved on the pure TaskLog.
 */
module Store {
  import opened State
  import opened Reducer
  import opened Collapse
  import opened Strings

  function FromTask(task: TaskState): HermesState {
    HermesState(
      task.ident, task.plannerSession, task.executorSession, task.goal, task.status,
      task.currentIdx, task.plan, task.accumulated, task.artifacts, task.budget,
      task.githubIssue, task.modelUsages, task.phaseUsages, [],
      if task.interruptedBy.Some?
      then Some(Interrupt(task.interruptedBy.value, NoStep, NoStep, None, "legacy_interrupted_by", 0, None))
      else None,
      [], None, None)
  }

  function ToTask(s: HermesState): TaskState {
    TaskState(
      s.ident, s.plannerSession, s.executorSession, s.goal, s.plan, s.currentIdx, s.accumulated,
      s.artifacts, s.status,
      if s.interrupt.Some? && s.interrupt.value.messageID != 0 then Some(s.interrupt.value.messageID) else None,
      s.budget, s.githubIssue, s.modelUsages, s.phaseUsages)
  }

  /** The fields that live only on snapshots. */
  function CarryForward(seed: HermesState, prev: HermesState): HermesState {
    seed.(subTaskResults := if prev.subTaskResults != [] then prev.subTaskResults else seed.subTaskResults,
          interrupt := if prev.interrupt.Some? then prev.interrupt else seed.interrupt,
          errors := if prev.errors != [] then prev.errors else seed.errors,
          replan := if prev.replan.Some? then prev.replan else seed.replan,
          walking := if prev.walking.Some? then prev.walking else seed.walking)
  }

  /** The row loses fields, the carry-forward restores exactly those: no field drifts. */
  lemma RowRoundTrip(s: HermesState)
    ensures CarryForward(FromTask(ToTask(s)), s) == s
  {
  }

  const NO_ROW := TaskState(
    TaskIdent("", 0, 0, ""), "", "", "", [], 0, [], [], NoStatus, None, TokenBudget(0, 0, 0, None), 0, [], [])

  datatype TaskLog = TaskLog(task: TaskState, history: seq<Snapshot>) {
    function Last(): Snapshot
      requires history != []
    {
      history[|history| - 1]
    }

    /** The state the next commit starts from. */
    function Seed(): HermesState {
      if history == [] then FromTask(task) else CarryForward(FromTask(task), Last().state)
    }

    /** The row and the latest snapshot tell the same story. */
    predicate InSync() {
      history != [] && Seed() == Last().state
    }
  }

  datatype StoreError =
    | NoTask
    | TaskIdRequired
    | DuplicateSnapshot
    | Rejected(why: ReduceError)

  function AutoID(taskID: string, n: nat): string {
    taskID + ":" + Dec(n)
  }

  predicate Duplicate(history: seq<Snapshot>, id: string, step: int) {
    exists i :: 0 <= i < |history| && (history[i].id == id || history[i].step == step)
  }

  /** The snapshot a commit appends, with the store's defaults filled in. */
  function NextSnapshot(taskID: string, history: seq<Snapshot>, next: HermesState, c: Commit): Snapshot {
    var step := |history| + 1;
    Snapshot(
      if c.snapshotID == "" then AutoID(taskID, step) else c.snapshotID,
      step, next, c.nextStep, c.sourceNode, Collapsed(c.updates), c.reason,
      if c.parentID == "" && history != [] then history[|history| - 1].id else c.parentID)
  }

  /** The effect of CommitRuntimeStep on the log of one task. */
  function Committed(taskID: string, log: TaskLog, c: Commit): Result<TaskLog, StoreError> {
    match Reduced(log.Seed(), c.updates)
    case Err(why) => Err(Rejected(why))
    case Ok(next) =>
      var snap := NextSnapshot(taskID, log.history, next, c);
      if Duplicate(log.history, snap.id, snap.step) then Err(DuplicateSnapshot)
      else Ok(TaskLog(ToTask(next), log.history + [snap]))
  }

  /** The effect of CreateSnapshot; an empty id is filled in, the step is the caller's. */
  function Created(taskID: string, history: seq<Snapshot>, snap: Snapshot): Result<seq<Snapshot>, StoreError> {
    var filled := if snap.id == "" then snap.(id := AutoID(taskID, |history| + 1)) else snap;
    if taskID == "" then Err(TaskIdRequired)
    else if Duplicate(history, filled.id, filled.step) then Err(DuplicateSnapshot)
    else Ok(history + [filled])
  }

  method FindDuplicate(history: seq<Snapshot>, id: string, step: int) returns (found: bool)
    ensures found == Duplicate(history, id, step)
  {
    for i := 0 to |history|
      invariant !Duplicate(history[..i], id, step)
    {
      if history[i].id == id || history[i].step == step {
        return true;
      }
    }
    assert history[..|history|] == history;
    return false;
  }

  class MemoryTaskStore {
    var tasks: map<string, TaskState>
    var snapshots: map<string, seq<Snapshot>>

    constructor ()
      ensures tasks == map[] && snapshots == map[]
    {
      tasks, snapshots := map[], map[];
    }

    function History(taskID: string): seq<Snapshot>
      reads this
    {
      if taskID in snapshots then snapshots[taskID] else []
    }

    /** The row, a zero one when there is none, with the history. */
    function Log(taskID: string): TaskLog
      reads this
    {
      TaskLog(if taskID in tasks then tasks[taskID] else NO_ROW, History(taskID))
    }

    method CreateTask(task: TaskState) returns (r: Result<TaskState, StoreError>)
      modifies this
      ensures r.Err? <==> task.ident.taskID == ""
      ensures snapshots == old(snapshots)
      ensures tasks == if r.Ok? then old(tasks)[task.ident.taskID := task] else old(tasks)
      ensures r.Ok? ==> r.value == task
    {
      if task.ident.taskID == "" {
        return Err(TaskIdRequired);
      }
      tasks := tasks[task.ident.taskID := task];
      return Ok(task);
    }

    method CreateSnapshot(taskID: string, snap: Snapshot) returns (r: Result<Snapshot, StoreError>)
      modifies this
      ensures tasks == old(tasks)
      ensures var created := Created(taskID, old(History(taskID)), snap);
        if created.Ok?
        then snapshots == old(snapshots)[taskID := created.value] && r == Ok(created.value[|created.value| - 1])
        else snapshots == old(snapshots) && r == Err(created.error)
    {
      if taskID == "" {
        return Err(TaskIdRequired);
      }
      var history := History(taskID);
      var filled := if snap.id == "" then snap.(id := AutoID(taskID, |history| + 1)) else snap;
      var duplicate := FindDuplicate(history, filled.id, filled.step);
      if duplicate {
        return Err(DuplicateSnapshot);
      }
      snapshots := snapshots[taskID := history + [filled]];
      return Ok(filled);
    }

    method GetLatestSnapshot(taskID: string) returns (r: Result<Snapshot, StoreError>)
      ensures r == if History(taskID) == [] then Err(NoTask) else Ok(History(taskID)[|History(taskID)| - 1])
    {
      var history := History(taskID);
      if |history| == 0 {
        return Err(NoTask);
      }
      return Ok(history[|history| - 1]);
    }

    method CommitRuntimeStep(taskID: string, c: Commit) returns (r: Result<Snapshot, StoreError>)
      modifies this
      ensures taskID !in old(tasks) ==> r == Err(NoTask) && tasks == old(tasks) && snapshots == old(snapshots)
      ensures taskID in old(tasks) ==>
        match Committed(taskID, old(Log(taskID)), c)
        case Err(e) => r == Err(e) && tasks == old(tasks) && snapshots == old(snapshots)
        case Ok(log) =>
          && r == Ok(log.Last())
          && tasks == old(tasks)[taskID := log.task]
          && snapshots == old(snapshots)[taskID := log.history]
          && Log(taskID) == log
    {
      if taskID !in tasks {
        return Err(NoTask);
      }
      var history := History(taskID);
      var seed := FromTask(tasks[taskID]);
      if |history| > 0 {
        seed := CarryForward(seed, history[|history| - 1].state);
      }
      assert seed == Log(taskID).Seed();
      var reduced := ApplyStateUpdates(seed, c.updates);
      if reduced.Err? {
        return Err(Rejected(reduced.error));
      }
      var step := |history| + 1;
      var parentID := c.parentID;
      if parentID == "" && |history| > 0 {
        parentID := history[|history| - 1].id;
      }
      var id := if c.snapshotID == "" then AutoID(taskID, step) else c.snapshotID;
      var duplicate := FindDuplicate(history, id, step);
      if duplicate {
        return Err(DuplicateSnapshot);
      }
      var writes := CollapseStateUpdates(c.updates);
      var snapshot := Snapshot(id, step, reduced.value, c.nextStep, c.sourceNode, writes, c.reason, parentID);
      assert snapshot == NextSnapshot(taskID, history, reduced.value, c);
      tasks := tasks[taskID := ToTask(reduced.value)];
      snapshots := snapshots[taskID := history + [snapshot]];
      return Ok(snapshot);
    }
  }

  // ---------- What the history means ----------

  /** The commits the walker and the resolutions make leave both ids to the store. */
  predicate DefaultIDs(c: Commit) {
    c.snapshotID == "" && c.parentID == ""
  }

  /** A parent chain with the store's own ids and steps; a seed snapshot carries step 0. */
  ghost predicate Linear(taskID: string, history: seq<Snapshot>) {
    forall k :: 0 <= k < |history| ==>
      && history[k].id == AutoID(taskID, k + 1)
      && (history[k].step == k + 1 || (k == 0 && history[k].step == 0))
      && (k == 0 ==> history[k].parentID == "")
      && (k > 0 ==> history[k].parentID == history[k - 1].id)
  }

  lemma AutoIDInjective(taskID: string, m: nat, n: nat)
    requires AutoID(taskID, m) == AutoID(taskID, n)
    ensures m == n
  {
    assert AutoID(taskID, m)[|taskID| + 1..] == Dec(m);
    assert AutoID(taskID, n)[|taskID| + 1..] == Dec(n);
    DecInjective(m, n);
  }

  lemma NextIsNoDuplicate(taskID: string, history: seq<Snapshot>)
    requires Linear(taskID, history)
    ensures !Duplicate(history, AutoID(taskID, |history| + 1), |history| + 1)
  {
    forall k | 0 <= k < |history| ensures history[k].id != AutoID(taskID, |history| + 1) {
      if history[k].id == AutoID(taskID, |history| + 1) {
        AutoIDInjective(taskID, k + 1, |history| + 1);
      }
    }
  }

  lemma LinearAppend(taskID: string, history: seq<Snapshot>, next: HermesState, c: Commit)
    requires Linear(taskID, history) && DefaultIDs(c)
    ensures Linear(taskID, history + [NextSnapshot(taskID, history, next, c)])
  {
    var h := history + [NextSnapshot(taskID, history, next, c)];
    forall k | 0 <= k < |h|
      ensures h[k].id == AutoID(taskID, k + 1) && (h[k].step == k + 1 || (k == 0 && h[k].step == 0))
      ensures (k == 0 ==> h[k].parentID == "") && (k > 0 ==> h[k].parentID == h[k - 1].id)
    {
      assert k < |history| ==> h[k] == history[k];
      assert k > 0 ==> h[k - 1] == history[k - 1];
    }
  }

  /** On a linear log the duplicate check never fires and a commit extends the chain. */
  lemma CommitStaysLinear(taskID: string, log: TaskLog, c: Commit)
    requires Linear(taskID, log.history) && DefaultIDs(c)
    ensures Committed(taskID, log, c).Err? ==> Committed(taskID, log, c).error.Rejected?
    ensures Committed(taskID, log, c).Ok? ==>
      var h := Committed(taskID, log, c).value.history;
      Linear(taskID, h) && |h| == |log.history| + 1 && log.history <= h
      && (log.history != [] ==> h[|h| - 2].step < h[|h| - 1].step)
  {
    NextIsNoDuplicate(taskID, log.history);
    if Committed(taskID, log, c).Ok? {
      LinearAppend(taskID, log.history, Reduced(log.Seed(), c.updates).value, c);
    }
  }

  /** After any commit the row and the snapshot agree: the new state is the reduced one. */
  lemma CommitSyncs(taskID: string, log: TaskLog, c: Commit)
    requires Committed(taskID, log, c).Ok?
    ensures var log' := Committed(taskID, log, c).value;
      && log'.InSync()
      && Reduced(log.Seed(), c.updates) == Ok(log'.Last().state)
      && log'.Last().nextStep == c.nextStep
      && log'.Last().writes == Collapsed(c.updates)
  {
    RowRoundTrip(Reduced(log.Seed(), c.updates).value);
  }

  function CommitAll(taskID: string, log: TaskLog, cs: seq<Commit>): Result<TaskLog, StoreError>
    decreases |cs|
  {
    if cs == [] then Ok(log)
    else match CommitAll(taskID, log, cs[..|cs| - 1])
      case Err(e) => Err(e)
      case Ok(log') => Committed(taskID, log', cs[|cs| - 1])
  }

  /** Every snapshot after the first is its predecessor with its own writes applied. */
  ghost predicate Replays(history: seq<Snapshot>) {
    forall k :: 0 < k < |history| ==>
      Reduced(history[k - 1].state, [history[k].writes]) == Ok(history[k].state)
  }

  function Replay(start: HermesState, writes: seq<StateUpdate>): Result<HermesState, ReduceError>
    decreases |writes|
  {
    if writes == [] then Ok(start)
    else match Replay(start, writes[..|writes| - 1])
      case Err(e) => Err(e)
      case Ok(s) => Reduced(s, [writes[|writes| - 1]])
  }

  function Writes(history: seq<Snapshot>): seq<StateUpdate> {
    seq(|history|, i requires 0 <= i < |history| => history[i].writes)
  }

  /**
    On a synced log the recorded write leads from the last state to the new one iff the batch
    puts replacements first.
   */
  lemma LastWrites(taskID: string, log: TaskLog, c: Commit)
    requires log.InSync() && Committed(taskID, log, c).Ok?
    ensures var last := Committed(taskID, log, c).value.Last();
      Reduced(log.Last().state, [last.writes]) == Ok(last.state) <==> ReplacementsFirst(c.updates)
  {
    CollapsePreservesMeaning(log.Last().state, c.updates);
  }

  /** One commit keeps the log replayable iff its batch puts replacements first. */
  lemma CommitReplaysExactly(taskID: string, log: TaskLog, c: Commit)
    requires log.InSync() && Replays(log.history)
    requires Committed(taskID, log, c).Ok?
    ensures Replays(Committed(taskID, log, c).value.history) <==> ReplacementsFirst(c.updates)
  {
    var h, n := Committed(taskID, log, c).value.history, |log.history|;
    LastWrites(taskID, log, c);
    assert h[..n] == log.history && h[n - 1] == log.Last();
    forall k | 0 < k < n
      ensures Reduced(h[k - 1].state, [h[k].writes]) == Ok(h[k].state)
    {
      assert h[k] == log.history[k] && h[k - 1] == log.history[k - 1];
    }
  }

  /** A commit appends one snapshot, whose recorded write leads from the seed to its state. */
  lemma CommitAppends(taskID: string, log: TaskLog, c: Commit) returns (snap: Snapshot)
    requires ReplacementsFirst(c.updates) && Committed(taskID, log, c).Ok?
    ensures Committed(taskID, log, c).value.history == log.history + [snap]
    ensures Reduced(log.Seed(), [snap.writes]) == Ok(snap.state)
  {
    var next := Reduced(log.Seed(), c.updates).value;
    snap := NextSnapshot(taskID, log.history, next, c);
    CollapsePreservesMeaning(log.Seed(), c.updates);
  }

  lemma ReplaysMore(h: seq<Snapshot>, snap: Snapshot)
    requires h != [] && Replays(h) && Reduced(h[|h| - 1].state, [snap.writes]) == Ok(snap.state)
    ensures Replays(h + [snap])
  {
    var more := h + [snap];
    assert more[|h|] == snap && more[|h| - 1] == h[|h| - 1];
    forall k | 0 < k < |h| ensures Reduced(more[k - 1].state, [more[k].writes]) == Ok(more[k].state) {
      assert more[k] == h[k] && more[k - 1] == h[k - 1];
    }
  }

  /** Snapshots behind one of the state that they start from. */
  function From(start: HermesState, appended: seq<Snapshot>): seq<Snapshot> {
    [Snapshot("", 0, start, NoStep, NoStep, NO_UPDATE, "", "")] + appended
  }

  lemma FromMore(start: HermesState, appended: seq<Snapshot>, seed: HermesState, snap: Snapshot)
    requires Replays(From(start, appended)) && Reduced(seed, [snap.writes]) == Ok(snap.state)
    requires appended == [] ==> seed == start
    requires appended != [] ==> seed == appended[|appended| - 1].state
    ensures Replays(From(start, appended + [snap]))
  {
    var chain := From(start, appended);
    assert chain[|chain| - 1].state == seed;
    ReplaysMore(chain, snap);
    assert chain + [snap] == From(start, appended + [snap]);
  }

  lemma FromReplays(start: HermesState, appended: seq<Snapshot>, k: nat)
    requires Replays(From(start, appended)) && k < |appended|
    ensures Replay(start, Writes(appended[..k + 1])) == Ok(appended[k].state)
  {
    ReplayPrefix(From(start, appended), k + 1);
    assert From(start, appended)[1..k + 2] == appended[..k + 1];
  }

  /** Commits extend a log, even one without a snapshot, to a longer linear chain that agrees with the row. */
  lemma {:induction false} LogGrows(taskID: string, log: TaskLog, cs: seq<Commit>)
    requires Linear(taskID, log.history) && forall i :: 0 <= i < |cs| ==> DefaultIDs(cs[i])
    requires CommitAll(taskID, log, cs).Ok?
    ensures var log' := CommitAll(taskID, log, cs).value;
      && Linear(taskID, log'.history) && log.history <= log'.history
      && |log'.history| == |log.history| + |cs| && (if cs == [] then log' == log else log'.InSync())
    decreases |cs|
  {
    if cs == [] {
    } else {
      var n := |cs| - 1;
      LogGrows(taskID, log, cs[..n]);
      var log' := CommitAll(taskID, log, cs[..n]).value;
      CommitStaysLinear(taskID, log', cs[n]);
      CommitSyncs(taskID, log', cs[n]);
    }
  }

  /** What a log's further commits appended. */
  function Appended(taskID: string, log: TaskLog, cs: seq<Commit>): seq<Snapshot>
    requires CommitAll(taskID, log, cs).Ok? && |CommitAll(taskID, log, cs).value.history| >= |log.history|
  {
    CommitAll(taskID, log, cs).value.history[|log.history|..]
  }

  lemma {:induction false} AppendedReplays(taskID: string, log: TaskLog, cs: seq<Commit>)
    requires Linear(taskID, log.history)
    requires forall i :: 0 <= i < |cs| ==> DefaultIDs(cs[i]) && ReplacementsFirst(cs[i].updates)
    requires CommitAll(taskID, log, cs).Ok?
    ensures |CommitAll(taskID, log, cs).value.history| >= |log.history|
    ensures Replays(From(log.Seed(), Appended(taskID, log, cs)))
    decreases |cs|
  {
    if cs == [] {
      assert Appended(taskID, log, cs) == [];
    } else {
      var n := |cs| - 1;
      var log' := CommitAll(taskID, log, cs[..n]).value;
      LogGrows(taskID, log, cs[..n]);
      AppendedReplays(taskID, log, cs[..n]);
      assert Appended(taskID, log, cs[..n]) == log'.history[|log.history|..];
      var snap := CommitAppends(taskID, log', cs[n]);
      AppendStep(log.Seed(), |log.history|, log', snap);
    }
  }

  /** One more snapshot on a log that has grown past its first n snapshots, which `start` is the seed of. */
  lemma AppendStep(start: HermesState, n: nat, log: TaskLog, snap: Snapshot)
    requires n <= |log.history| && Reduced(log.Seed(), [snap.writes]) == Ok(snap.state)
    requires if n == |log.history| then log.Seed() == start else log.InSync()
    requires Replays(From(start, log.history[n..]))
    ensures Replays(From(start, (log.history + [snap])[n..]))
  {
    var appended := log.history[n..];
    assert (log.history + [snap])[n..] == appended + [snap];
    FromMore(start, appended, log.Seed(), snap);
  }

  /**
    The event log replays: whatever is committed to a log, even one without a snapshot,
    the history stays a linear chain, and folding the recorded writes over the state
    that the first commit started from gives every later snapshot's state.
   */
  lemma LogReplays(taskID: string, log: TaskLog, cs: seq<Commit>, k: nat)
    requires Linear(taskID, log.history)
    requires forall i :: 0 <= i < |cs| ==> DefaultIDs(cs[i]) && ReplacementsFirst(cs[i].updates)
    requires CommitAll(taskID, log, cs).Ok? && k < |cs|
    ensures var h := CommitAll(taskID, log, cs).value.history;
      Linear(taskID, h) && log.history <= h && |h| == |log.history| + |cs|
    ensures var appended := Appended(taskID, log, cs);
      |appended| == |cs| && Replay(log.Seed(), Writes(appended[..k + 1])) == Ok(appended[k].state)
  {
    LogGrows(taskID, log, cs);
    AppendedReplays(taskID, log, cs);
    FromReplays(log.Seed(), Appended(taskID, log, cs), k);
  }

  lemma {:induction false} ReplayPrefix(h: seq<Snapshot>, k: nat)
    requires Replays(h) && k < |h|
    ensures Replay(h[0].state, Writes(h[1..k + 1])) == Ok(h[k].state)
  {
    if k == 0 {
    } else {
      ReplayPrefix(h, k - 1);
      var ws := Writes(h[1..k + 1]);
      assert ws[..|ws| - 1] == Writes(h[1..k]);
      assert ws[|ws| - 1] == h[k].writes;
    }
  }
}

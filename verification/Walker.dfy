/** Walker.Run: the loop over the task store, which terminates without a step cap. */
module WalkerLoop {
  import opened State
  import opened Store
  import opened NodeTypes
  import opened ReplanCoordinator
  import opened Runtime
  import opened Events
  import opened Termination

  /** The rank a run descends; before its first commit the row may still differ from the snapshot. */
  datatype Rank = Rank(unsynced: nat, rounds: nat, phase: nat, work: nat)

  predicate Below(a: Rank, b: Rank) {
    || a.unsynced < b.unsynced
    || (a.unsynced == b.unsynced
        && (|| a.rounds < b.rounds
            || (a.rounds == b.rounds && (a.phase < b.phase || (a.phase == b.phase && a.work < b.work)))))
  }

  function ViewOf(log: TaskLog): View
    requires log.history != []
  {
    View(log.Last().state, log.Last().nextStep)
  }

  function RankOf(cfg: Config, log: TaskLog, c: Coordinator): Rank {
    if log.history == [] then Rank(1, 0, 0, 0)
    else Rank(if log.InSync() then 0 else 1, Rounds(cfg, c, log.Last().nextStep),
              Phase(log.Last().nextStep), PlanWork(cfg, ViewOf(log)))
  }

  predicate Recorded(cfg: Config, log: TaskLog, c: Coordinator) {
    log.history != [] ==> CanReplan(cfg, c, log.Last().nextStep)
  }

  /** A turn that goes on has dispatched a node and committed its output. */
  lemma TurnCommits(cfg: Config, taskID: string, log: TaskLog, c: Coordinator, t: Tick, turn: Turn)
    requires turn == Iterate(cfg, taskID, log, c, t) && !turn.stop
    ensures log.history != []
    ensures var a := Decide(cfg, c, log.Last().state, log.Last().nextStep, t);
      && a.Advance? && a.commit.nextStep != Terminal && !a.halt && turn.coord == a.coord
      && Committed(taskID, log, a.commit) == Ok(turn.log)
  {
  }

  /** The view that a plain commit leads to. */
  lemma CommittedView(taskID: string, log: TaskLog, commit: Commit, log': TaskLog)
    requires log.history != [] && Plain(commit) && Committed(taskID, log, commit) == Ok(log')
    ensures log'.history != [] && log'.InSync() && ViewOf(log').step == commit.nextStep
    ensures log.InSync() ==> ViewOf(log').s == Effect(log.Last().state, Write(commit))
  {
    CommitSyncs(taskID, log, commit);
    PlainIsSingle(log.Last().state, commit);
  }

  /** A turn that goes on, as the output of its node. */
  lemma TurnGoesOn(cfg: Config, taskID: string, log: TaskLog, c: Coordinator, t: Tick, turn: Turn)
    requires turn == Iterate(cfg, taskID, log, c, t) && !turn.stop
    ensures log.history != [] && turn.log.history != [] && turn.log.InSync()
    ensures var v := ViewOf(log);
      && Gate(v.s, v.step, t.now).None? && Dispatch(cfg, c, v.s, v.step, t).0.Ok?
      && var out := Dispatch(cfg, c, v.s, v.step, t).0.value;
      && out.nextStep != Terminal && !out.halt
      && turn.coord == Dispatch(cfg, c, v.s, v.step, t).1
      && ViewOf(turn.log).step == out.nextStep
      && (log.InSync() ==> ViewOf(turn.log).s == Effect(v.s, NodeWrite(v.s, out)))
  {
    TurnCommits(cfg, taskID, log, c, t, turn);
    var s, step := log.Last().state, log.Last().nextStep;
    TurnIsOutput(cfg, c, s, step, t);
    CommittedView(taskID, log, Decide(cfg, c, s, step, t).commit, turn.log);
  }

  /** A turn that goes on lowers the rank. */
  lemma TurnLowers(cfg: Config, taskID: string, log: TaskLog, c: Coordinator, t: Tick, turn: Turn)
    requires Recorded(cfg, log, c) && turn == TurnsOf(cfg, taskID)(log, c, t) && !turn.stop
    ensures turn.log.history != [] && Recorded(cfg, turn.log, turn.coord)
    ensures Below(RankOf(cfg, turn.log, turn.coord), RankOf(cfg, log, c))
  {
    TurnGoesOn(cfg, taskID, log, c, t, turn);
    DispatchLowers(cfg, c, ViewOf(log), t);
  }

  /** With fewer turns than these the run does not stop by itself. */
  ghost predicate TakesAtLeast(turner: Turner, taskID: string, start: Position, env: nat -> Tick, turns: nat) {
    forall n: nat :: n < turns ==> !RunFor(turner, taskID, start, env, n).1.Stopped?
  }

  /** What remains to be run from p is what is left of the run from the start. */
  ghost predicate Continues(turner: Turner, taskID: string, start: Position, p: Position, env: nat -> Tick) {
    && start.turns <= p.turns
    && TakesAtLeast(turner, taskID, start, env, p.turns - start.turns)
    && forall n: nat ::
         RunFor(turner, taskID, p, env, n) == RunFor(turner, taskID, start, env, p.turns - start.turns + n)
  }

  lemma ContinuesStart(turner: Turner, taskID: string, start: Position, env: nat -> Tick)
    ensures Continues(turner, taskID, start, start, env)
  {
  }

  /** A position at which the run is not cancelled takes one turn more. */
  lemma TakesOneMore(turner: Turner, taskID: string, start: Position, p: Position, env: nat -> Tick)
    requires Continues(turner, taskID, start, p, env) && env(p.turns).ctxErr.None?
    ensures TakesAtLeast(turner, taskID, start, env, p.turns - start.turns + 1)
  {
    assert RunFor(turner, taskID, p, env, 0) == RunFor(turner, taskID, start, env, p.turns - start.turns);
  }

  /** A turn that goes on moves the position along the run. */
  lemma ContinuesStep(turner: Turner, taskID: string, start: Position, p: Position, env: nat -> Tick, turn: Turn)
    returns (p': Position)
    requires Continues(turner, taskID, start, p, env)
    requires env(p.turns).ctxErr.None? && turner(p.log, p.coord, env(p.turns)) == turn && !turn.stop
    ensures p' == Position(turn.log, turn.coord, true, p.turns + 1)
    ensures Continues(turner, taskID, start, p', env)
  {
    p' := Position(turn.log, turn.coord, true, p.turns + 1);
    TakesOneMore(turner, taskID, start, p, env);
    forall n: nat
      ensures RunFor(turner, taskID, p', env, n) == RunFor(turner, taskID, start, env, p'.turns - start.turns + n)
    {
      assert RunFor(turner, taskID, p, env, n + 1) == RunFor(turner, taskID, p', env, n);
    }
  }

  /**
    What a finished run reports: without a cap, the run of as many turns as it took, and
    no fewer turns would do; with one, the run of at most that many, and the cap's own
    error when it bites.
   */
  ghost predicate Reports(turner: Turner, taskID: string, start: Position, env: nat -> Tick, maxSteps: nat,
                          log: TaskLog, err: Option<RunError>, turns: nat)
  {
    && TakesAtLeast(turner, taskID, start, env, turns)
    && if maxSteps == 0 then RunFor(turner, taskID, start, env, turns) == (log, Stopped(err))
       else
         var r := RunFor(turner, taskID, start, env, maxSteps);
         turns <= maxSteps && r.0 == log && err == if r.1.Stopped? then r.1.err else Some(MaxStepsExceeded)
  }

  /** A turn that stops ends the run there, however many more turns were allowed. */
  lemma ContinuesStop(turner: Turner, taskID: string, start: Position, p: Position,
                      env: nat -> Tick, turn: Turn, maxSteps: nat)
    requires Continues(turner, taskID, start, p, env) && start.turns == 0 && (maxSteps == 0 || p.turns < maxSteps)
    requires env(p.turns).ctxErr.None? && turner(p.log, p.coord, env(p.turns)) == turn && turn.stop
    ensures Reports(turner, taskID, start, env, maxSteps, turn.log, turn.err, p.turns + 1)
  {
    TakesOneMore(turner, taskID, start, p, env);
    var n := if maxSteps == 0 then p.turns + 1 else maxSteps;
    assert RunFor(turner, taskID, p, env, n - p.turns) == RunFor(turner, taskID, start, env, n);
  }

  /** Cancellation at the top of a turn. */
  lemma ContinuesCancelled(turner: Turner, taskID: string, start: Position, p: Position,
                           env: nat -> Tick, maxSteps: nat)
    requires Continues(turner, taskID, start, p, env) && start.turns == 0 && (maxSteps == 0 || p.turns <= maxSteps)
    requires env(p.turns).ctxErr.Some?
    ensures var t := env(p.turns);
      Reports(turner, taskID, start, env, maxSteps, Cancel(taskID, p.log, p.loaded, t.ctxErr.value, t.now),
              Some(Cancelled(t.ctxErr.value)), p.turns)
  {
    var n := if maxSteps == 0 then p.turns else maxSteps;
    assert RunFor(turner, taskID, p, env, n - p.turns) == RunFor(turner, taskID, start, env, n);
  }

  /** The step cap. */
  lemma ContinuesCapped(turner: Turner, taskID: string, start: Position, p: Position, env: nat -> Tick, maxSteps: nat)
    requires Continues(turner, taskID, start, p, env) && start.turns == 0 && p.turns == maxSteps > 0
    requires env(p.turns).ctxErr.None?
    ensures Reports(turner, taskID, start, env, maxSteps, p.log, Some(MaxStepsExceeded), p.turns)
  {
    assert RunFor(turner, taskID, p, env, 0) == RunFor(turner, taskID, start, env, maxSteps);
  }

  /** A turn for a task without a row: nothing can be committed, and it stops. */
  function RowlessTurn(cfg: Config, log: TaskLog, c: Coordinator, t: Tick): Turn {
    if log.history == [] then Turn(log, c, true, Some(NoSnapshot))
    else
      match Decide(cfg, c, log.Last().state, log.Last().nextStep, t)
      case Leave(why) => Turn(log, c, true, why)
      case Record(_, why) => Turn(log, c, true, Some(why))
      case Advance(_, c', _) => Turn(log, c', true, Some(CommitFailed(NoTask)))
  }

  /** The turns of a task that has a row, or has none. */
  function TurnerOf(cfg: Config, taskID: string, stored: bool): Turner {
    if stored then TurnsOf(cfg, taskID)
    else (log: TaskLog, c: Coordinator, t: Tick) => RowlessTurn(cfg, log, c, t)
  }

  class Walker {
    const store: MemoryTaskStore
    const cfg: Config
    /** 0 means unbounded. */
    const maxSteps: nat

    constructor (store: MemoryTaskStore, cfg: Config, maxSteps: nat)
      ensures this.store == store && this.cfg == cfg && this.maxSteps == maxSteps
    {
      this.store, this.cfg, this.maxSteps := store, cfg, maxSteps;
    }

    predicate Stored(taskID: string)
      reads store
    {
      taskID in store.tasks
    }

    /** One turn against the store. */
    method TakeTurn(taskID: string, c: Coordinator, t: Tick)
      returns (stop: bool, err: Option<RunError>, c': Coordinator)
      modifies store
      ensures Stored(taskID) == old(Stored(taskID))
      ensures Turn(store.Log(taskID), c', stop, err)
           == TurnerOf(cfg, taskID, Stored(taskID))(old(store.Log(taskID)), c, t)
    {
      var latest := store.GetLatestSnapshot(taskID);
      if latest.Err? {
        return true, Some(NoSnapshot), c;
      }
      var snap := latest.value;
      assert snap == store.Log(taskID).Last();
      stop, err, c' := Apply(taskID, c, Decide(cfg, c, snap.state, snap.nextStep, t));
    }

    /** The commits of one turn. */
    method Apply(taskID: string, c: Coordinator, action: Action)
      returns (stop: bool, err: Option<RunError>, c': Coordinator)
      modifies store
      ensures Stored(taskID) == old(Stored(taskID))
      ensures Stored(taskID) ==>
        Turn(store.Log(taskID), c', stop, err) == Applied(taskID, old(store.Log(taskID)), c, action)
      ensures !Stored(taskID) ==>
        && store.Log(taskID) == old(store.Log(taskID)) && stop && c' == (if action.Advance? then action.coord else c)
        && err == match action
                  case Leave(why) => why
                  case Record(_, why) => Some(why)
                  case Advance(_, _, _) => Some(CommitFailed(NoTask))
    {
      match action
      case Leave(why) =>
        return true, why, c;
      case Record(commit, why) =>
        var _ := store.CommitRuntimeStep(taskID, commit);
        return true, Some(why), c;
      case Advance(commit, coord, halt) =>
        var committed := store.CommitRuntimeStep(taskID, commit);
        if committed.Err? {
          return true, Some(CommitFailed(committed.error)), coord;
        }
        return commit.nextStep == Terminal || halt, None, coord;
    }

    /** Cancellation at the top of a turn is recorded once a snapshot has been read. */
    method RecordCancellation(taskID: string, t: Tick, loaded: bool, env: nat -> Tick, ghost turner: Turner,
                              ghost start: Position, ghost p: Position)
      requires loaded ==> Stored(taskID) && store.History(taskID) != []
      requires p.log == store.Log(taskID) && p.loaded == loaded && env(p.turns) == t
      requires start.turns == 0 && (maxSteps == 0 || p.turns <= maxSteps)
      requires Continues(turner, taskID, start, p, env) && t.ctxErr.Some?
      modifies store
      ensures Stored(taskID) == old(Stored(taskID))
      ensures Reports(turner, taskID, start, env, maxSteps, store.Log(taskID), Some(Cancelled(t.ctxErr.value)),
                      p.turns)
    {
      if loaded {
        var latest := store.GetLatestSnapshot(taskID);
        var _ := store.CommitRuntimeStep(taskID, CancelCommit(latest.value.nextStep, t.ctxErr.value, t.now));
      }
      ContinuesCancelled(turner, taskID, start, p, env, maxSteps);
    }

    /** A turn in the course of a run: it ends the run as reported, or moves it on and down. */
    method Proceed(taskID: string, c: Coordinator, env: nat -> Tick, turns: nat, ghost turner: Turner,
                   ghost start: Position, ghost p: Position)
      returns (stop: bool, err: Option<RunError>, c': Coordinator, ghost p': Position, ghost rank: Rank)
      requires p.log == store.Log(taskID) && p.coord == c && p.turns == turns && start.turns == 0
      requires turner == TurnerOf(cfg, taskID, Stored(taskID))
      requires Recorded(cfg, p.log, c) && Continues(turner, taskID, start, p, env)
      requires env(turns).ctxErr.None? && (maxSteps == 0 || turns < maxSteps)
      modifies store
      ensures Stored(taskID) == old(Stored(taskID))
      ensures stop ==>
        Reports(turner, taskID, start, env, maxSteps, store.Log(taskID), err, turns + 1)
      ensures !stop ==>
        && p' == Position(store.Log(taskID), c', true, turns + 1) && p'.log.history != [] && Stored(taskID)
        && Recorded(cfg, p'.log, c') && Continues(turner, taskID, start, p', env)
        && rank == RankOf(cfg, p'.log, c') && Below(rank, RankOf(cfg, p.log, c))
    {
      stop, err, c' := TakeTurn(taskID, c, env(turns));
      ghost var turn := Turn(store.Log(taskID), c', stop, err);
      p', rank := p, RankOf(cfg, turn.log, c');
      if stop {
        ContinuesStop(turner, taskID, start, p, env, turn, maxSteps);
      } else {
        TurnLowers(cfg, taskID, p.log, c, env(turns), turn);
        p' := ContinuesStep(turner, taskID, start, p, env, turn);
      }
    }

    /**
      The run for one task: a fresh coordinator, then turns until one stops. With
      no cap it still terminates, and it is RunFor with as many turns as it took.
      A task without a row keeps its log and ends with its first turn.
     */
    method Run(taskID: string, env: nat -> Tick) returns (err: Option<RunError>, turns: nat)
      modifies store
      ensures Stored(taskID) == old(Stored(taskID))
      ensures Reports(TurnerOf(cfg, taskID, Stored(taskID)), taskID,
                      Position(old(store.Log(taskID)), None, false, 0), env, maxSteps,
                      store.Log(taskID), err, turns)
    {
      var c: Coordinator := None;
      var loaded := false;
      turns := 0;
      ghost var turner := TurnerOf(cfg, taskID, Stored(taskID));
      ghost var start := Position(store.Log(taskID), None, false, 0);
      ghost var p, rank := start, RankOf(cfg, start.log, c);
      ContinuesStart(turner, taskID, start, env);
      while true
        invariant Stored(taskID) == old(Stored(taskID)) && turner == TurnerOf(cfg, taskID, Stored(taskID))
        invariant loaded ==> Stored(taskID) && p.log.history != []
        invariant p == Position(store.Log(taskID), c, loaded, turns) && rank == RankOf(cfg, p.log, c)
        invariant Recorded(cfg, p.log, c)
        invariant maxSteps == 0 || turns <= maxSteps
        invariant Continues(turner, taskID, start, p, env)
        decreases rank.unsynced, rank.rounds, rank.phase, rank.work
      {
        var t := env(turns);
        if t.ctxErr.Some? {
          RecordCancellation(taskID, t, loaded, env, turner, start, p);
          return Some(Cancelled(t.ctxErr.value)), turns;
        }
        if maxSteps > 0 && turns >= maxSteps {
          ContinuesCapped(turner, taskID, start, p, env, maxSteps);
          return Some(MaxStepsExceeded), turns;
        }
        var stop, e;
        stop, e, c, p, rank := Proceed(taskID, c, env, turns, turner, start, p);
        if stop {
          return e, turns + 1;
        }
        loaded, turns := true, turns + 1;
      }
    }
  }

  /** What a run reports of a task without a row: its log as it was, and the first turn's end. */
  lemma RowlessRun(cfg: Config, taskID: string, start: Position, env: nat -> Tick, maxSteps: nat,
                   log: TaskLog, err: Option<RunError>, turns: nat)
    requires start.turns == 0 && !start.loaded
    requires Reports(TurnerOf(cfg, taskID, false), taskID, start, env, maxSteps, log, err, turns)
    ensures log == start.log
    ensures if env(0).ctxErr.Some? then turns == 0 && err == Some(Cancelled(env(0).ctxErr.value))
            else turns <= 1 && err == RowlessTurn(cfg, start.log, start.coord, env(0)).err
  {
    var turner := TurnerOf(cfg, taskID, false);
    assert RunFor(turner, taskID, start, env, 0) == RunFor(turner, taskID, start, env, 0);
    assert turns > 1 ==> RunFor(turner, taskID, start, env, 1).1.Stopped?;
  }
}

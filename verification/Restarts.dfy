/**
  Crash and restart: what a run cut short and started again has in common with the run
  uncut. Everything durable is in the log; what a restart loses is the coordinator's
  memory of the last rejected review and of the replans used up, and the fact that a
  snapshot has been read.
 */
module RestartEquivalence {
  import opened State
  import opened Store
  import opened NodeTypes
  import opened ReplanCoordinator
  import opened Runtime
  import opened Events
  import Strings

  /** A run of m + n turns is a run of m, then n more from where it stood. */
  lemma {:induction false} RunSplits(turner: Turner, taskID: string, p: Position, env: nat -> Tick, m: nat, n: nat)
    ensures var first := RunFor(turner, taskID, p, env, m);
      RunFor(turner, taskID, p, env, m + n)
        == if first.1.Stopped? then first
           else RunFor(turner, taskID, Position(first.0, first.1.coord, first.1.loaded, p.turns + m), env, n)
    decreases m
  {
    if m > 0 && env(p.turns).ctxErr.None? {
      var turn := turner(p.log, p.coord, env(p.turns));
      if !turn.stop {
        RunSplits(turner, taskID, Position(turn.log, turn.coord, true, p.turns + 1), env, m - 1, n);
      }
    }
  }

  // ---------- One turn under two memories ----------

  /**
    What may be left of a coordinator after a restart and some turns: nothing, or the same
    rejected review, counted anew.
   */
  predicate LeftOf(c: Coordinator, c': Coordinator) {
    || c' == c || c'.None?
    || (c.Some? && c'.Some? && c'.value == c.value.(attempts := c'.value.attempts))
  }

  /**
    The turn treats the two memories differently: a replan setup does as soon as they
    differ, and a task review with verdict "block" does when one of them has replans left
    and the other has none.
   */
  predicate Shows(cfg: Config, c: Coordinator, c': Coordinator, v: View, t: Tick) {
    && Gate(v.s, v.step, t.now).None? && t.panic.None?
    && (|| (v.step == ReplanSetup && c != c')
        || (v.step == Reviewer && t.review.Some? && t.review.value.verdict == "block"
            && WantsReplan(cfg, c, t.review.value) != WantsReplan(cfg, c', t.review.value)))
  }

  /** The reasons that the replan setup and a task review with verdict "block" leave in the history. */
  predicate NamesReplan(reason: string) {
    || reason == "replan_setup_noop" || reason == "replan_setup_partial" || reason == "replan_setup_full"
    || reason == "reviewer_block_replan" || reason == "reviewer_block_terminal"
  }

  lemma TriggersAreTrimmed()
    ensures Strings.TrimSpace("partial") == "partial" && Strings.TrimSpace("full") == "full"
  {
    Strings.TrimSpaceId("partial");
    Strings.TrimSpaceId("full");
  }

  /** The reasons under which a replan setup is recorded. */
  lemma SetupReason(cfg: Config, c: Coordinator, s: HermesState, t: Tick)
    ensures var (r, _) := Dispatch(cfg, c, s, ReplanSetup, t);
      && r.Ok? && r.value.nextStep == Planner && NodeWrite(s, r.value).status.None? && NamesReplan(r.value.reason)
      && (r.value.reason == "replan_setup_noop" <==> c.None?)
  {
    TriggersAreTrimmed();
  }

  /** A setup with a recorded review writes the attempt it opens. */
  lemma SetupWrites(cfg: Config, r: Replanning, s: HermesState, t: Tick)
    ensures var out := Dispatch(cfg, Some(r), s, ReplanSetup, t).0;
      out.Ok? && out.value.nextStep == Planner && !out.value.halt
      && var s' := Effect(s, NodeWrite(s, out.value)); s'.replan.Some? && s'.replan.value.attemptIdx == r.attempts + 1
  {
    SetupReason(cfg, Some(r), s, t);
  }

  /**
    Unless the turn shows a difference, both memories get the same output, and stay alike as
    long as the run goes on.
   */
  lemma SameDispatch(cfg: Config, c: Coordinator, c': Coordinator, v: View, t: Tick)
    requires LeftOf(c, c') && Gate(v.s, v.step, t.now).None? && t.panic.None? && !Shows(cfg, c, c', v, t)
    ensures var (r, d), (r', d') := Dispatch(cfg, c, v.s, v.step, t), Dispatch(cfg, c', v.s, v.step, t);
      r == r' && (r.Ok? && r.value.nextStep != Terminal ==> LeftOf(d, d'))
  {
  }


  /** The same decision, up to the coordinator it leaves. */
  predicate SameAction(a: Action, b: Action) {
    if a.Advance? then b.Advance? && b.commit == a.commit && b.halt == a.halt else b == a
  }

  lemma SameDecision(cfg: Config, c: Coordinator, c': Coordinator, v: View, t: Tick)
    requires LeftOf(c, c') && !Shows(cfg, c, c', v, t)
    ensures var a, b := Decide(cfg, c, v.s, v.step, t), Decide(cfg, c', v.s, v.step, t);
      SameAction(a, b) && (a.Advance? && a.commit.nextStep != Terminal ==> LeftOf(a.coord, b.coord))
  {
    if Gate(v.s, v.step, t.now).None? && t.panic.None? {
      SameDispatch(cfg, c, c', v, t);
    }
  }

  lemma SameApplied(taskID: string, log: TaskLog, c: Coordinator, c': Coordinator, a: Action, b: Action)
    requires SameAction(a, b)
    ensures var x, y := Applied(taskID, log, c, a), Applied(taskID, log, c', b);
      && x.log == y.log && x.stop == y.stop && x.err == y.err
      && (!x.stop ==> a.Advance? && a.commit.nextStep != Terminal && x.coord == a.coord && y.coord == b.coord)
  {
  }

  /** Unless the turn shows a difference, it leaves the same log and the same end under both memories. */
  lemma SameTurn(cfg: Config, taskID: string, log: TaskLog, c: Coordinator, c': Coordinator, t: Tick)
    requires log.history != [] && LeftOf(c, c')
    requires !Shows(cfg, c, c', View(log.Last().state, log.Last().nextStep), t)
    ensures var a, b := Iterate(cfg, taskID, log, c, t), Iterate(cfg, taskID, log, c', t);
      a.log == b.log && a.stop == b.stop && a.err == b.err && (!a.stop ==> LeftOf(a.coord, b.coord))
  {
    var v := View(log.Last().state, log.Last().nextStep);
    SameDecision(cfg, c, c', v, t);
    SameApplied(taskID, log, c, c', Decide(cfg, c, v.s, v.step, t), Decide(cfg, c', v.s, v.step, t));
  }

  /** A write lands in a log: as one more snapshot when it is accepted, else not at all. */
  predicate Lands(log: TaskLog, log': TaskLog, w: StateUpdate, next: RuntimeStep, reason: string)
    requires log.history != []
  {
    if Accepts(log.Last().state, w) then
      && log.history <= log'.history && |log'.history| == |log.history| + 1
      && log'.Last().state == Effect(log.Last().state, w)
      && log'.Last().nextStep == next && log'.Last().reason == reason
    else log' == log
  }

  predicate EndsRejected(err: Option<RunError>) {
    err.Some? && err.value.CommitFailed?
  }

  lemma CommitLands(taskID: string, log: TaskLog, commit: Commit)
    requires log.history != [] && Sound(taskID, log) && Plain(commit)
    ensures Lands(log, CommittedOr(taskID, log, commit), Write(commit), commit.nextStep, commit.reason)
    ensures Committed(taskID, log, commit).Ok? <==> Accepts(log.Last().state, Write(commit))
  {
    PlainIsSingle(log.Last().state, commit);
    CommitStaysLinear(taskID, log, commit);
  }

  lemma AdvanceLands(taskID: string, log: TaskLog, c: Coordinator, a: Action)
    requires log.history != [] && Sound(taskID, log) && a.Advance? && Plain(a.commit)
    ensures var turn, w := Applied(taskID, log, c, a), Write(a.commit);
      && Lands(log, turn.log, w, a.commit.nextStep, a.commit.reason)
      && (!Accepts(log.Last().state, w) ==> turn.stop && EndsRejected(turn.err))
      && (a.commit.nextStep == Terminal ==> turn.stop)
  {
    CommitLands(taskID, log, a.commit);
  }

  /** A dispatched turn appends the snapshot of its output, or stops with the log as it was. */
  lemma OutputAppends(cfg: Config, taskID: string, log: TaskLog, c: Coordinator, t: Tick, out: NodeOutput)
    requires log.history != [] && Sound(taskID, log)
    requires Gate(log.Last().state, log.Last().nextStep, t.now).None? && t.panic.None?
    requires Dispatch(cfg, c, log.Last().state, log.Last().nextStep, t).0 == Ok(out) && out.nextStep != NoStep
    ensures var a, s := Iterate(cfg, taskID, log, c, t), log.Last().state;
      && Lands(log, a.log, NodeWrite(s, out), out.nextStep, out.reason)
      && (!Accepts(s, NodeWrite(s, out)) ==> a.stop && EndsRejected(a.err))
      && (out.nextStep == Terminal ==> a.stop)
  {
    var s, step := log.Last().state, log.Last().nextStep;
    var a := Decide(cfg, c, s, step, t);
    TurnIsOutput(cfg, c, s, step, t);
    assert a.commit.reason == out.reason;
    AdvanceLands(taskID, log, c, a);
  }

  /** Two logs that have parted after n snapshots, for good: they differ there, or only one has gone on. */
  predicate Parted(a: seq<Snapshot>, b: seq<Snapshot>, n: nat) {
    if |a| > n && |b| > n then a[n] != b[n] else |a| > n || |b| > n
  }

  lemma SetupParts(cfg: Config, taskID: string, log: TaskLog, c: Coordinator, c': Coordinator, t: Tick)
    requires log.history != [] && Sound(taskID, log) && LeftOf(c, c') && c != c'
    requires log.Last().nextStep == ReplanSetup && Gate(log.Last().state, ReplanSetup, t.now).None? && t.panic.None?
    ensures var a, b := Iterate(cfg, taskID, log, c, t), Iterate(cfg, taskID, log, c', t);
      && |a.log.history| == |b.log.history| == |log.history| + 1
      && Parted(a.log.history, b.log.history, |log.history|)
  {
    var s := log.Last().state;
    SetupReason(cfg, c, s, t);
    SetupReason(cfg, c', s, t);
    OutputAppends(cfg, taskID, log, c, t, Dispatch(cfg, c, s, ReplanSetup, t).0.value);
    OutputAppends(cfg, taskID, log, c', t, Dispatch(cfg, c', s, ReplanSetup, t).0.value);
    if c'.Some? {
      SetupWrites(cfg, c.value, s, t);
      SetupWrites(cfg, c'.value, s, t);
    }
  }

  /** A task review with verdict "block" goes to the replan setup or ends the run. */
  lemma BlockOutput(cfg: Config, c: Coordinator, s: HermesState, t: Tick)
    requires t.review.Some? && t.review.value.verdict == "block"
    ensures var out := Dispatch(cfg, c, s, Reviewer, t).0;
      && out.Ok?
      && out.value.nextStep == (if WantsReplan(cfg, c, t.review.value) then ReplanSetup else Terminal)
      && (WantsReplan(cfg, c, t.review.value) ==> NodeWrite(s, out.value).status.None?)
      && NamesReplan(out.value.reason)
  {
  }

  lemma BlockParts(cfg: Config, taskID: string, log: TaskLog, c: Coordinator, t: Tick)
    requires log.history != [] && Sound(taskID, log) && log.Last().nextStep == Reviewer
    requires Gate(log.Last().state, Reviewer, t.now).None? && t.panic.None?
    requires t.review.Some? && t.review.value.verdict == "block"
    ensures var a, n := Iterate(cfg, taskID, log, c, t), |log.history|;
      if WantsReplan(cfg, c, t.review.value) then |a.log.history| == n + 1 && a.log.Last().nextStep == ReplanSetup
      else a.stop && (a.log == log || (|a.log.history| == n + 1 && a.log.Last().nextStep == Terminal))
  {
    var s := log.Last().state;
    BlockOutput(cfg, c, s, t);
    OutputAppends(cfg, taskID, log, c, t, Dispatch(cfg, c, s, Reviewer, t).0.value);
  }

  /** A turn that shows the difference parts the logs. */
  lemma ShowsParts(cfg: Config, taskID: string, log: TaskLog, c: Coordinator, c': Coordinator, t: Tick)
    requires log.history != [] && Sound(taskID, log) && LeftOf(c, c')
    requires Shows(cfg, c, c', View(log.Last().state, log.Last().nextStep), t)
    ensures var a, b, n := Iterate(cfg, taskID, log, c, t), Iterate(cfg, taskID, log, c', t), |log.history|;
      && Parted(a.log.history, b.log.history, n)
      && (a.stop || |a.log.history| > n) && (b.stop || |b.log.history| > n)
  {
    if log.Last().nextStep == ReplanSetup {
      SetupParts(cfg, taskID, log, c, c', t);
    } else {
      BlockParts(cfg, taskID, log, c, t);
      BlockParts(cfg, taskID, log, c', t);
    }
  }

  /** One turn, exactly: the two memories leave the same log iff the turn does not show the difference. */
  lemma TurnSameExactly(cfg: Config, taskID: string, log: TaskLog, c: Coordinator, c': Coordinator, t: Tick)
    requires log.history != [] && Sound(taskID, log) && LeftOf(c, c')
    ensures var a, b := Iterate(cfg, taskID, log, c, t), Iterate(cfg, taskID, log, c', t);
      && (a.log == b.log <==> !Shows(cfg, c, c', View(log.Last().state, log.Last().nextStep), t))
      && (a.log == b.log ==> a.stop == b.stop && a.err == b.err && (!a.stop ==> LeftOf(a.coord, b.coord)))
  {
    if Shows(cfg, c, c', View(log.Last().state, log.Last().nextStep), t) {
      ShowsParts(cfg, taskID, log, c, c', t);
    } else {
      SameTurn(cfg, taskID, log, c, c', t);
    }
  }

  // ---------- Whole runs under two memories ----------

  /** Whether a turn from a log treats two memories differently. */
  type Telltale = (TaskLog, Coordinator, Coordinator, Tick) -> bool

  function ShowsIn(cfg: Config): Telltale {
    (log: TaskLog, c: Coordinator, c': Coordinator, t: Tick) =>
      log.history != [] && Shows(cfg, c, c', View(log.Last().state, log.Last().nextStep), t)
  }

  /** Where a run stands after a turn that goes on. */
  function Next(p: Position, turn: Turn): Position {
    Position(turn.log, turn.coord, true, p.turns + 1)
  }

  /**
    Within n turns from a position, a turn of the run shows that the coordinator is not
    the one it would be under the other memory.
   */
  predicate Noticed(turner: Turner, shows: Telltale, p: Position, c': Coordinator, env: nat -> Tick, n: nat)
    decreases n
  {
    && n > 0 && env(p.turns).ctxErr.None?
    && var t := env(p.turns);
    && (|| shows(p.log, p.coord, c', t)
        || var turn := turner(p.log, p.coord, t);
           !turn.stop && Noticed(turner, shows, Next(p, turn), turner(p.log, c', t).coord, env, n - 1))
  }

  /** The same end, but for the coordinator left behind when the turns run out. */
  predicate SameEnd(a: Outcome, b: Outcome) {
    if a.Stopped? then b == a else b.OutOfSteps?
  }

  /** Turns and cancellations only add to a log in good order, and leave it so. */
  ghost predicate OnlyAdds(turner: Turner, taskID: string, good: TaskLog -> bool) {
    && (forall log, c, t :: good(log) ==>
          good(turner(log, c, t).log) && log.history <= turner(log, c, t).log.history)
    && (forall log, loaded, why, now :: good(log) ==> log.history <= Cancel(taskID, log, loaded, why, now).history)
  }

  /** A turn parts the logs where it shows the difference, and keeps the memories alike where it does not. */
  ghost predicate Discerns(turner: Turner, shows: Telltale, good: TaskLog -> bool,
                           alike: (Coordinator, Coordinator) -> bool)
  {
    forall log: TaskLog, c, c', t :: good(log) && alike(c, c') ==>
      var a, b, n := turner(log, c, t), turner(log, c', t), |log.history|;
      if shows(log, c, c', t) then
        Parted(a.log.history, b.log.history, n)
        && (a.stop || |a.log.history| > n) && (b.stop || |b.log.history| > n)
      else
        a.log == b.log && a.stop == b.stop && a.err == b.err && (!a.stop ==> alike(a.coord, b.coord))
  }

  lemma {:induction false} RunOnlyAdds(turner: Turner, taskID: string,
                                       good: TaskLog -> bool, p: Position, env: nat -> Tick, n: nat)
    requires OnlyAdds(turner, taskID, good) && good(p.log)
    ensures p.log.history <= RunFor(turner, taskID, p, env, n).0.history
    decreases n
  {
    if env(p.turns).ctxErr.None? && n > 0 {
      var a := turner(p.log, p.coord, env(p.turns));
      if !a.stop {
        RunOnlyAdds(turner, taskID, good, Next(p, a), env, n - 1);
      }
    }
  }

  /** What a run has in its log is what its first turn put there, and more only if that turn goes on. */
  lemma AfterTurn(turner: Turner, taskID: string, good: TaskLog -> bool, p: Position, env: nat -> Tick, n: nat)
    requires OnlyAdds(turner, taskID, good) && good(p.log) && n > 0 && env(p.turns).ctxErr.None?
    ensures var a, r := turner(p.log, p.coord, env(p.turns)), RunFor(turner, taskID, p, env, n).0;
      a.log.history <= r.history && (a.stop ==> r == a.log)
  {
    var a := turner(p.log, p.coord, env(p.turns));
    if !a.stop {
      RunOnlyAdds(turner, taskID, good, Next(p, a), env, n - 1);
    }
  }

  lemma {:induction false} RunsPartExactly(turner: Turner, shows: Telltale, good: TaskLog -> bool,
                                           alike: (Coordinator, Coordinator) -> bool, taskID: string,
                                           p: Position, c': Coordinator, env: nat -> Tick, n: nat)
    requires OnlyAdds(turner, taskID, good) && Discerns(turner, shows, good, alike)
    requires good(p.log) && alike(p.coord, c')
    ensures var a, b := RunFor(turner, taskID, p, env, n), RunFor(turner, taskID, p.(coord := c'), env, n);
      && (a.0 == b.0 <==> !Noticed(turner, shows, p, c', env, n))
      && (a.0 == b.0 ==> SameEnd(a.1, b.1))
    decreases n
  {
    var t := env(p.turns);
    if t.ctxErr.None? && n > 0 {
      var a, b := turner(p.log, p.coord, t), turner(p.log, c', t);
      if shows(p.log, p.coord, c', t) {
        AfterTurn(turner, taskID, good, p, env, n);
        AfterTurn(turner, taskID, good, p.(coord := c'), env, n);
      } else if !a.stop {
        RunsPartExactly(turner, shows, good, alike, taskID, Next(p, a), b.coord, env, n - 1);
        assert Next(p, a).(coord := b.coord) == Next(p.(coord := c'), b);
      }
    }
  }

  /** A turn keeps the log in good order and only adds to it. */
  lemma TurnGrows(cfg: Config, taskID: string, log: TaskLog, c: Coordinator, t: Tick)
    requires log.history != [] && Sound(taskID, log)
    ensures var a := Iterate(cfg, taskID, log, c, t);
      Sound(taskID, a.log) && log.history <= a.log.history
  {
    IterateIsTurn(cfg, taskID, log, c, t);
    HappenIsStep(cfg, taskID, Machine(log, c), Turning(t));
  }

  lemma CancelGrows(cfg: Config, taskID: string, log: TaskLog, loaded: bool, why: string, now: int)
    requires log.history != [] && Sound(taskID, log)
    ensures log.history <= Cancel(taskID, log, loaded, why, now).history
  {
    if loaded {
      CancelIsEvent(cfg, taskID, log, None, why, now);
      HappenIsStep(cfg, taskID, Machine(log, None), Cancelling(why, now));
    }
  }

  /**
    A whole run, exactly: under the two memories it leaves the same log iff no turn of it
    shows the difference, and then it ends the same way.
   */
  lemma RunSameExactly(cfg: Config, taskID: string, p: Position, c': Coordinator, env: nat -> Tick, n: nat)
    requires p.log.history != [] && Sound(taskID, p.log) && LeftOf(p.coord, c')
    ensures var turner := TurnsOf(cfg, taskID);
      var a, b := RunFor(turner, taskID, p, env, n), RunFor(turner, taskID, p.(coord := c'), env, n);
      && (a.0 == b.0 <==> !Noticed(turner, ShowsIn(cfg), p, c', env, n))
      && (a.0 == b.0 ==> SameEnd(a.1, b.1))
  {
    ghost var good := (log: TaskLog) => log.history != [] && Sound(taskID, log);
    var alike := (c: Coordinator, d: Coordinator) => LeftOf(c, d);
    TurnsOnlyAdd(cfg, taskID, good);
    TurnsDiscern(cfg, taskID, good, alike);
    RunsPartExactly(TurnsOf(cfg, taskID), ShowsIn(cfg), good, alike, taskID, p, c', env, n);
  }

  lemma TurnsOnlyAdd(cfg: Config, taskID: string, good: TaskLog -> bool)
    requires forall log :: good(log) <==> log.history != [] && Sound(taskID, log)
    ensures OnlyAdds(TurnsOf(cfg, taskID), taskID, good)
  {
    forall log, c, t | good(log)
      ensures var a := TurnsOf(cfg, taskID)(log, c, t); good(a.log) && log.history <= a.log.history
    {
      TurnGrows(cfg, taskID, log, c, t);
    }
    forall log, loaded, why, now | good(log) ensures log.history <= Cancel(taskID, log, loaded, why, now).history {
      CancelGrows(cfg, taskID, log, loaded, why, now);
    }
  }

  lemma TurnsDiscern(cfg: Config, taskID: string, good: TaskLog -> bool, alike: (Coordinator, Coordinator) -> bool)
    requires forall log :: good(log) <==> log.history != [] && Sound(taskID, log)
    requires forall c, d :: alike(c, d) <==> LeftOf(c, d)
    ensures Discerns(TurnsOf(cfg, taskID), ShowsIn(cfg), good, alike)
  {
    forall log: TaskLog, c, c', t | good(log) && alike(c, c')
      ensures var a, b, n := TurnsOf(cfg, taskID)(log, c, t), TurnsOf(cfg, taskID)(log, c', t), |log.history|;
        if ShowsIn(cfg)(log, c, c', t) then
          Parted(a.log.history, b.log.history, n)
          && (a.stop || |a.log.history| > n) && (b.stop || |b.log.history| > n)
        else
          a.log == b.log && a.stop == b.stop && a.err == b.err && (!a.stop ==> alike(a.coord, b.coord))
    {
      if ShowsIn(cfg)(log, c, c', t) {
        ShowsParts(cfg, taskID, log, c, c', t);
      } else {
        SameTurn(cfg, taskID, log, c, c', t);
      }
    }
  }

  // ---------- Restarts ----------

  /** What a restart does to a position: the coordinator and the last read are lost. */
  function Restarted(p: Position): Position {
    p.(coord := None, loaded := false)
  }

  /** A restart just before a cancellation, of a process that had read a snapshot. */
  predicate CancelledAtOnce(p: Position, env: nat -> Tick) {
    p.loaded && env(p.turns).ctxErr.Some?
  }

  /** Unless it is cancelled at once, a run does not depend on whether a snapshot has been read. */
  lemma LoadedDoesNotMatter(turner: Turner, taskID: string, p: Position, env: nat -> Tick, n: nat)
    requires env(p.turns).ctxErr.None?
    ensures var a, b := RunFor(turner, taskID, p, env, n), RunFor(turner, taskID, p.(loaded := false), env, n);
      a.0 == b.0 && SameEnd(a.1, b.1)
  {
  }

  /**
    Exactly when a restart is invisible: it is not cancelled at once, and no turn of the
    run shows that the coordinator's memory is gone.
   */
  lemma RestartInvisibleExactly(cfg: Config, taskID: string, p: Position, env: nat -> Tick, n: nat)
    requires p.log.history != [] && Sound(taskID, p.log)
    ensures var turner := TurnsOf(cfg, taskID);
      var a, b := RunFor(turner, taskID, p, env, n), RunFor(turner, taskID, Restarted(p), env, n);
      && (a.0 == b.0 <==> !CancelledAtOnce(p, env) && !Noticed(turner, ShowsIn(cfg), p, None, env, n))
      && (a.0 == b.0 ==> SameEnd(a.1, b.1))
  {
    var turner := TurnsOf(cfg, taskID);
    if CancelledAtOnce(p, env) {
      RestartLosesCancellation(turner, taskID, p, env, n);
    } else if env(p.turns).ctxErr.None? {
      RunSameExactly(cfg, taskID, p, None, env, n);
      LoadedDoesNotMatter(turner, taskID, p.(coord := None), env, n);
      assert p.(coord := None).(loaded := false) == Restarted(p);
    }
  }

  /** With nothing recorded there is nothing to notice. */
  lemma {:induction false} NothingToNotice(cfg: Config, taskID: string, p: Position, env: nat -> Tick, n: nat)
    ensures !Noticed(TurnsOf(cfg, taskID), ShowsIn(cfg), p, p.coord, env, n)
    decreases n
  {
    if n > 0 && env(p.turns).ctxErr.None? {
      var turn := TurnsOf(cfg, taskID)(p.log, p.coord, env(p.turns));
      NothingToNotice(cfg, taskID, Next(p, turn), env, n - 1);
    }
  }

  /** A turn that could tell one memory from another leaves its reason in the log, or is rejected. */
  lemma ShowsItsReason(cfg: Config, taskID: string, log: TaskLog, c: Coordinator, c': Coordinator, t: Tick)
    requires log.history != [] && Sound(taskID, log)
    requires Shows(cfg, c, c', View(log.Last().state, log.Last().nextStep), t)
    ensures var a := Iterate(cfg, taskID, log, c, t);
      || (a.stop && EndsRejected(a.err))
      || (|a.log.history| == |log.history| + 1 && NamesReplan(a.log.Last().reason))
  {
    var s, step := log.Last().state, log.Last().nextStep;
    if step == ReplanSetup {
      SetupReason(cfg, c, s, t);
    } else {
      BlockOutput(cfg, c, s, t);
    }
    OutputAppends(cfg, taskID, log, c, t, Dispatch(cfg, c, s, step, t).0.value);
  }

  /** A turn that shows the difference leaves a mark in the log, or is rejected. */
  ghost predicate Marks(turner: Turner, shows: Telltale, good: TaskLog -> bool, mark: Snapshot -> bool) {
    forall log: TaskLog, c, c', t :: good(log) && shows(log, c, c', t) ==>
      var a := turner(log, c, t);
      || (a.stop && EndsRejected(a.err))
      || (|a.log.history| == |log.history| + 1 && mark(a.log.history[|log.history|]))
  }

  /** No mark has been left since a position, and the run did not end in a rejected commit. */
  ghost predicate Unmarked(mark: Snapshot -> bool, p: Position, log: TaskLog, end: Outcome) {
    && !(end.Stopped? && EndsRejected(end.err))
    && forall k :: |p.log.history| <= k < |log.history| ==> !mark(log.history[k])
  }

  /** Without a mark in the history nothing was noticed, whatever the other memory is. */
  lemma {:induction false} UnmarkedUnnoticed(turner: Turner, shows: Telltale, good: TaskLog -> bool,
                                             mark: Snapshot -> bool, taskID: string, p: Position, c': Coordinator,
                                             env: nat -> Tick, n: nat)
    requires OnlyAdds(turner, taskID, good) && Marks(turner, shows, good, mark) && good(p.log)
    requires var (log, end) := RunFor(turner, taskID, p, env, n); Unmarked(mark, p, log, end)
    ensures !Noticed(turner, shows, p, c', env, n)
    decreases n
  {
    if n == 0 || env(p.turns).ctxErr.Some? {
    } else {
      var t := env(p.turns);
      var turn := turner(p.log, p.coord, t);
      AfterTurn(turner, taskID, good, p, env, n);
      assert !shows(p.log, p.coord, c', t);
      if !turn.stop {
        UnmarkedUnnoticed(turner, shows, good, mark, taskID, Next(p, turn), turner(p.log, c', t).coord, env, n - 1);
      }
    }
  }

  /** The history since a position records no replan and no blocking task review, and no commit was rejected. */
  ghost predicate NoReplanSince(p: Position, log: TaskLog, end: Outcome) {
    Unmarked((snap: Snapshot) => NamesReplan(snap.reason), p, log, end)
  }

  lemma HistoryTellsNothing(cfg: Config, taskID: string, p: Position, c': Coordinator, env: nat -> Tick, n: nat)
    requires p.log.history != [] && Sound(taskID, p.log)
    requires var (log, end) := RunFor(TurnsOf(cfg, taskID), taskID, p, env, n); NoReplanSince(p, log, end)
    ensures !Noticed(TurnsOf(cfg, taskID), ShowsIn(cfg), p, c', env, n)
  {
    ghost var good := (log: TaskLog) => log.history != [] && Sound(taskID, log);
    var mark := (snap: Snapshot) => NamesReplan(snap.reason);
    TurnsOnlyAdd(cfg, taskID, good);
    forall log: TaskLog, c, c', t | good(log) && ShowsIn(cfg)(log, c, c', t)
      ensures var a := TurnsOf(cfg, taskID)(log, c, t);
        || (a.stop && EndsRejected(a.err))
        || (|a.log.history| == |log.history| + 1 && mark(a.log.history[|log.history|]))
    {
      ShowsItsReason(cfg, taskID, log, c, c', t);
    }
    UnmarkedUnnoticed(TurnsOf(cfg, taskID), ShowsIn(cfg), good, mark, taskID, p, c', env, n);
  }

  /**
    What a caller can check on the uncut history: without a recorded review at the cut, or
    without a replan and a blocking task review after it, a restart changes nothing.
   */
  lemma RestartInvisible(cfg: Config, taskID: string, p: Position, env: nat -> Tick, n: nat)
    requires p.log.history != [] && Sound(taskID, p.log) && !CancelledAtOnce(p, env)
    requires var (log, end) := RunFor(TurnsOf(cfg, taskID), taskID, p, env, n);
      p.coord.None? || NoReplanSince(p, log, end)
    ensures var turner := TurnsOf(cfg, taskID);
      var a, b := RunFor(turner, taskID, p, env, n), RunFor(turner, taskID, Restarted(p), env, n);
      a.0 == b.0 && SameEnd(a.1, b.1)
  {
    RestartInvisibleExactly(cfg, taskID, p, env, n);
    if p.coord.None? {
      NothingToNotice(cfg, taskID, p, env, n);
    } else {
      HistoryTellsNothing(cfg, taskID, p, None, env, n);
    }
  }

  /** Cut after m turns by the step cap, restarted, and run for n more: when that is the run of m + n, exactly. */
  lemma CutAndRestart(cfg: Config, taskID: string, p: Position, env: nat -> Tick, m: nat, n: nat)
    requires p.log.history != [] && Sound(taskID, p.log)
    requires RunFor(TurnsOf(cfg, taskID), taskID, p, env, m).1.OutOfSteps?
    ensures var turner := TurnsOf(cfg, taskID);
      var first := RunFor(turner, taskID, p, env, m);
      var cut := Position(first.0, first.1.coord, first.1.loaded, p.turns + m);
      RunFor(turner, taskID, Restarted(cut), env, n).0 == RunFor(turner, taskID, p, env, m + n).0
      <==> !CancelledAtOnce(cut, env) && !Noticed(turner, ShowsIn(cfg), cut, None, env, n)
  {
    var turner := TurnsOf(cfg, taskID);
    var first := RunFor(turner, taskID, p, env, m);
    var es := RunIsEvents(cfg, taskID, p, env, m);
    RunsReplay(cfg, taskID, Machine(p.log, p.coord), es);
    RunSplits(turner, taskID, p, env, m, n);
    RestartInvisibleExactly(cfg, taskID, Position(first.0, first.1.coord, first.1.loaded, p.turns + m), env, n);
  }

  /** Where a task review that blocks leads. */
  lemma BlockMoves(cfg: Config, c: Coordinator, v: View, t: Tick)
    requires v.step == Reviewer && v.s.status == Executing && Gate(v.s, v.step, t.now).None? && t.panic.None?
    requires t.review.Some? && t.review.value.verdict == "block"
    ensures var v' := After(cfg, c, v, Turning(t));
      if WantsReplan(cfg, c, t.review.value) then v'.step == ReplanSetup
      else v'.step == Terminal && v'.s.status == TaskDone
  {
    BlockOutput(cfg, c, v.s, t);
    TurnCauseExplains(cfg, c, v, t);
  }

  /**
    A restart resets the retry limit. Once the replans are used up, a task review that
    blocks ends the run; after a restart the same review opens a replan again, and the
    count starts at zero.
   */
  lemma RestartResetsRetries(cfg: Config, r: Replanning, v: View, t: Tick)
    requires v.step == Reviewer && v.s.status == Executing && Gate(v.s, v.step, t.now).None? && t.panic.None?
    requires t.review.Some? && t.review.value.verdict == "block"
    requires WantsReplan(cfg, None, t.review.value) && r.attempts >= MaxAttempts(cfg)
    ensures var kept, lost := Step(cfg, Live(v, Some(r)), Turning(t)), Step(cfg, Live(v, None), Turning(t));
      && kept.v.step == Terminal && kept.v.s.status == TaskDone
      && lost.v.step == ReplanSetup && Attempts(lost.coord) == 0
  {
    BlockMoves(cfg, Some(r), v, t);
    BlockMoves(cfg, None, v, t);
  }

  /** Cancelled at once, the uncut run records the cancellation and the restarted one does not. */
  lemma RestartLosesCancellation(turner: Turner, taskID: string, p: Position, env: nat -> Tick, n: nat)
    requires p.log.history != [] && Sound(taskID, p.log) && CancelledAtOnce(p, env)
    ensures RunFor(turner, taskID, Restarted(p), env, n).0 == p.log
    ensures |RunFor(turner, taskID, p, env, n).0.history| == |p.log.history| + 1
  {
    var t := env(p.turns);
    var commit := CancelCommit(p.log.Last().nextStep, t.ctxErr.value, t.now);
    PlainIsSingle(p.log.Last().state, commit);
    CommitStaysLinear(taskID, p.log, commit);
  }

  /** Dispatching an approval that is still pending changes no field and no step. */
  lemma PendingApprovalChangesNothing(cfg: Config, c: Coordinator, v: View, t: Tick)
    requires v.step == Approval && v.s.interrupt.Some? && Gate(v.s, v.step, t.now).None? && t.panic.None?
    ensures After(cfg, c, v, Turning(t)) == v
    ensures Decide(cfg, c, v.s, v.step, t).Advance? && Decide(cfg, c, v.s, v.step, t).halt
  {
    TurnCauseExplains(cfg, c, v, t);
    ReducedNothing(v.s);
  }
}

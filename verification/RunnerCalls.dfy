/** What is charged beyond the books, accounted for call by call over whole runs. */
module ChargeAccounts {
  import opened State
  import opened Ledger
  import opened NodeTypes
  import opened ReplanCoordinator
  import opened Runtime
  import opened Events
  import opened FinishedWork
  import opened LedgerBalance
  import opened AttemptAccounts
  import ExecutorNode
  import RunFrames

  /** What a call is charged beyond its recorded input and output; a call that is not booked is not charged. */
  function Hidden(res: ExecutorNode.RunResult): int {
    if res.model != "" && res.TokenVolume() > 0 then res.TokenVolume() - (res.input + res.output) else 0
  }

  /** What a call hides is nothing exactly when it reports its input, or is not booked. */
  lemma HiddenExactly(res: ExecutorNode.RunResult)
    ensures Hidden(res) == 0 <==> res.model == "" || res.TokenVolume() <= 0 || res.ReportsInput()
    ensures Hidden(res) != 0 ==> Hidden(res) == res.uncached + res.cacheRead + res.cacheCreation
  {
  }

  function Excess(w: StateUpdate): int {
    w.tokenUsageDelta - Ledger.Volume(w.modelUsages)
  }

  lemma WriteExcess(s: HermesState, w: StateUpdate)
    ensures Unbooked(Effect(s, w)) == Unbooked(s) + Excess(w)
  {
    MergeConservesVolume(s.modelUsages, w.modelUsages);
  }

  lemma ChargeExcess(u: StateUpdate, res: ExecutorNode.RunResult)
    requires u.modelUsages == [] && u.phaseUsages == [] && u.tokenUsageDelta == 0
    ensures Excess(ExecutorNode.Charged(u, res)) == Hidden(res)
  {
    var c := res.Reported();
    assert [Usage(res.model, c)][..0] == [];
    assert Ledger.Volume([Usage(res.model, c)]) == c.input + c.output;
  }

  /** The single write of an output, with what it charges beyond the books. */
  predicate Exceeds(out: NodeOutput, excess: int) {
    |out.updates| == 1 && Excess(out.updates[0]) == excess
  }

  lemma HeldExceeds(s: HermesState, res: ExecutorNode.RunResult, errText: Text, now: int)
    requires InRange(s)
    ensures Exceeds(ExecutorNode.HandOff(s, res), Hidden(res))
    ensures Exceeds(ExecutorNode.Pause(s, res, errText, now), Hidden(res))
  {
    forall u: StateUpdate | u.modelUsages == [] && u.phaseUsages == [] && u.tokenUsageDelta == 0
      ensures Excess(ExecutorNode.Charged(u, res)) == Hidden(res)
    {
      ChargeExcess(u, res);
    }
  }

  lemma FinishExceeds(cfg: Config, s: HermesState, res: ExecutorNode.RunResult, status: SubTaskStatus, text: Text,
                      reason: string)
    requires InRange(s)
    ensures Exceeds(ExecutorNode.Finish(cfg, s, res, status, text, reason), Hidden(res))
  {
    forall u: StateUpdate | u.modelUsages == [] && u.phaseUsages == [] && u.tokenUsageDelta == 0
      ensures Excess(ExecutorNode.Charged(u, res)) == Hidden(res)
    {
      ChargeExcess(u, res);
    }
  }

  lemma CallExceeds(cfg: Config, s: HermesState, a: RunAnswer, now: int)
    requires InRange(s) && !AlreadyDone(s.plan[s.currentIdx])
    ensures ExecutorNode.Handle(cfg, s, a, now).Ok?
    ensures Exceeds(ExecutorNode.Handle(cfg, s, a, now).value, Hidden(a.res))
  {
    var errText := if a.err.Some? then a.err.value else [];
    HeldExceeds(s, a.res, errText, now);
    FinishExceeds(cfg, s, a.res, SubFailed, errText, "subtask_failed");
    FinishExceeds(cfg, s, a.res, SubDone, a.res.text, "subtask_done");
  }

  /** What an event is charged beyond the books: what its runner call hides. */
  function HiddenBy(cfg: Config, c: Coordinator, v: View, e: Event): int {
    var a := Answer(cfg, c, v, e);
    if a.Some? then Hidden(a.value.res) else 0
  }

  lemma CallAccount(cfg: Config, c: Coordinator, v: View, e: Event)
    requires Answer(cfg, c, v, e).Some?
    ensures Unbooked(After(cfg, c, v, e).s) == Unbooked(v.s) + Hidden(e.tick.run.res)
  {
    CallIsWrite(cfg, c, v, e);
    CallExceeds(cfg, v.s, e.tick.run, e.tick.now);
    var out := ExecutorNode.Handle(cfg, v.s, e.tick.run, e.tick.now).value;
    OutputExcess(v.s, out);
  }

  lemma OutputExcess(s: HermesState, out: NodeOutput)
    requires |out.updates| == 1
    ensures Unbooked(Effect(s, NodeWrite(s, out))) == Unbooked(s) + Excess(out.updates[0])
  {
    WriteExcess(s, NodeWrite(s, out));
  }

  /** Without a committed runner call the charge is what is booked. */
  lemma OtherAccount(cfg: Config, c: Coordinator, v: View, e: Event)
    requires Answer(cfg, c, v, e).None?
    ensures Unbooked(After(cfg, c, v, e).s) == Unbooked(v.s)
  {
    CauseIsWrite(cfg, c, v, e);
    CauseFacts(cfg, c, v, e);
    var w := CauseWrite(v.s, CauseOf(cfg, c, v, e));
    if CauseOf(cfg, c, v, e).Dispatched? && CallsRunner(v, e.tick) {
      UncommittedCall(cfg, c, v, e);
    } else {
      UncalledBooks(cfg, c, v, e);
      WriteBooks(v.s, w);
    }
  }

  lemma UncalledBooks(cfg: Config, c: Coordinator, v: View, e: Event)
    requires !(CauseOf(cfg, c, v, e).Dispatched? && CallsRunner(v, e.tick))
    ensures ChargesRecorded(CauseWrite(v.s, CauseOf(cfg, c, v, e)))
  {
    CauseFacts(cfg, c, v, e);
    if CauseOf(cfg, c, v, e).Dispatched? {
      UncalledOutputBooks(cfg, c, v, e.tick);
    }
  }

  lemma UncalledOutputBooks(cfg: Config, c: Coordinator, v: View, t: Tick)
    requires Gate(v.s, v.step, t.now).None? && !CallsRunner(v, t)
    requires Dispatch(cfg, c, v.s, v.step, t).0.Ok?
    ensures ChargesRecorded(NodeWrite(v.s, Dispatch(cfg, c, v.s, v.step, t).0.value))
  {
    if v.step == StrictReview {
      StrictReviewBooks(cfg, v.s, t.strict);
    } else if v.step == Planner {
      PlannerBooks(cfg, v.s, t.plan);
    } else if v.step == Executor {
      PassBooks(cfg, v.s, t.run, t.now);
    } else {
      RunFrames.DispatchWithin(cfg, c, v, t);
    }
  }

  lemma PassBooks(cfg: Config, s: HermesState, a: RunAnswer, now: int)
    requires InRange(s) && AlreadyDone(s.plan[s.currentIdx])
    ensures ExecutorNode.Handle(cfg, s, a, now).Ok?
    ensures ChargesRecorded(NodeWrite(s, ExecutorNode.Handle(cfg, s, a, now).value))
  {
  }

  /** Over a run: what its committed runner calls hide. */
  function HiddenIn(cfg: Config, l: Live, es: seq<Event>): int
    decreases |es|
  {
    if es == [] then 0
    else
      var before := Run(cfg, l, es[..|es| - 1]);
      HiddenIn(cfg, l, es[..|es| - 1]) + HiddenBy(cfg, before.coord, before.v, es[|es| - 1])
  }

  /** The charge exceeds the books by exactly what the runner calls of the run hide. */
  lemma {:induction false} RunsAccount(cfg: Config, l: Live, es: seq<Event>)
    ensures Unbooked(Run(cfg, l, es).v.s) == Unbooked(l.v.s) + HiddenIn(cfg, l, es)
    decreases |es|
  {
    if es == [] {
    } else {
      var before, e := Run(cfg, l, es[..|es| - 1]), es[|es| - 1];
      RunsAccount(cfg, l, es[..|es| - 1]);
      if Answer(cfg, before.coord, before.v, e).Some? {
        CallAccount(cfg, before.coord, before.v, e);
      } else {
        OtherAccount(cfg, before.coord, before.v, e);
      }
    }
  }
}

/** The walking ladder over whole runs of the runtime. */
module SessionRuns {
  import opened State
  import opened NodeTypes
  import opened ReplanCoordinator
  import opened Runtime
  import opened Events
  import opened FinishedWork
  import opened RunFrames
  import opened AttemptAccounts
  import opened WalkingLadder
  import ExecutorNode

  /** What the ladder is told about a call: the state it is made in, and the answer. */
  type Telling = (HermesState, RunAnswer) -> Call

  /** The call is lost to the ladder: it failed under failure pause. */
  predicate Lost(cfg: Config, a: RunAnswer) {
    a.err.Some? && cfg.failurePause
  }

  /** A runner that keeps the ladder: on an enabled state it reports the state after its call. */
  predicate Follows(call: Telling, s: HermesState, a: RunAnswer) {
    s.walking.Some? && s.walking.value.enabled ==>
      a.res.walking == Some(NextWalking(s.walking.value, call(s, a), Reuses(s.walking.value, call(s, a))))
  }

  /** The walking state changes only by runner calls that are not lost. */
  lemma EventWalks(cfg: Config, c: Coordinator, v: View, e: Event)
    ensures var a, s' := Answer(cfg, c, v, e), After(cfg, c, v, e).s;
      s'.walking == if a.Some? && !Lost(cfg, a.value) then WalkingAfter(v.s, a.value.res.walking) else v.s.walking
  {
    if Answer(cfg, c, v, e).Some? {
      CallIsWrite(cfg, c, v, e);
      ExecutorRecordsWalking(cfg, v.s, e.tick.run, e.tick.now);
    } else {
      NoCallNoWalk(cfg, c, v, e);
    }
  }

  lemma NoCallNoWalk(cfg: Config, c: Coordinator, v: View, e: Event)
    requires Answer(cfg, c, v, e).None?
    ensures After(cfg, c, v, e).s.walking == v.s.walking
  {
    CauseFacts(cfg, c, v, e);
    if CauseOf(cfg, c, v, e).Dispatched? && CallsRunner(v, e.tick) {
      UncommittedCall(cfg, c, v, e);
    } else {
      CauseIsWrite(cfg, c, v, e);
      UncalledWalks(cfg, c, v, e);
    }
  }

  lemma UncalledWalks(cfg: Config, c: Coordinator, v: View, e: Event)
    requires !(CauseOf(cfg, c, v, e).Dispatched? && CallsRunner(v, e.tick))
    ensures var w := CauseWrite(v.s, CauseOf(cfg, c, v, e));
      w.walking.None? && !w.clearWalking
  {
    CauseFacts(cfg, c, v, e);
    if CauseOf(cfg, c, v, e).Dispatched? {
      if v.step == Executor {
        PassWalks(cfg, v.s, e.tick.run, e.tick.now);
      } else {
        DispatchWithin(cfg, c, v, e.tick);
      }
    }
  }

  lemma PassWalks(cfg: Config, s: HermesState, a: RunAnswer, now: int)
    requires InRange(s) && AlreadyDone(s.plan[s.currentIdx])
    ensures ExecutorNode.Handle(cfg, s, a, now).Ok?
    ensures var w := NodeWrite(s, ExecutorNode.Handle(cfg, s, a, now).value);
      w.walking.None? && !w.clearWalking
  {
  }

  /** The calls that the ladder has seen in a stretch of events. */
  function Calls(cfg: Config, call: Telling, l: Live, es: seq<Event>): seq<Call>
    decreases |es|
  {
    if es == [] then []
    else
      var before := Run(cfg, l, es[..|es| - 1]);
      var a := Answer(cfg, before.coord, before.v, es[|es| - 1]);
      Calls(cfg, call, l, es[..|es| - 1])
      + if a.Some? && !Lost(cfg, a.value) then [call(before.v.s, a.value)] else []
  }

  /** The runner keeps the ladder throughout the run. */
  ghost predicate KeepsLadder(cfg: Config, call: Telling, l: Live, es: seq<Event>)
    decreases |es|
  {
    es == []
    || (KeepsLadder(cfg, call, l, es[..|es| - 1])
        && var before := Run(cfg, l, es[..|es| - 1]);
           var a := Answer(cfg, before.coord, before.v, es[|es| - 1]);
           a.Some? ==> Follows(call, before.v.s, a.value))
  }

  lemma OneMoreCall(w: Walking, calls: seq<Call>, call: Call)
    ensures GraphRun(w, calls + [call]) ==
      NextWalking(GraphRun(w, calls), call, Reuses(GraphRun(w, calls), call))
  {
    assert (calls + [call])[..|calls|] == calls;
  }

  lemma {:induction false} StaysEnabled(w: Walking, calls: seq<Call>)
    ensures GraphRun(w, calls).enabled == w.enabled
    decreases |calls|
  {
    if calls == [] {
    } else {
      StaysEnabled(w, calls[..|calls| - 1]);
    }
  }

  /** In every reachable state the walking state is that of the ladder after the calls it has seen. */
  lemma {:induction false} RunsWalkTheLadder(cfg: Config, call: Telling, l: Live, es: seq<Event>, w: Walking)
    requires l.v.s.walking == Some(w) && w.enabled && KeepsLadder(cfg, call, l, es)
    ensures Run(cfg, l, es).v.s.walking == Some(GraphRun(w, Calls(cfg, call, l, es)))
    decreases |es|
  {
    if es == [] {
    } else {
      var init, e := es[..|es| - 1], es[|es| - 1];
      var before := Run(cfg, l, init);
      var a, calls := Answer(cfg, before.coord, before.v, e), Calls(cfg, call, l, init);
      RunsWalkTheLadder(cfg, call, l, init, w);
      StaysEnabled(w, calls);
      EventWalks(cfg, before.coord, before.v, e);
      if a.Some? && !Lost(cfg, a.value) {
        var next := call(before.v.s, a.value);
        OneMoreCall(w, calls, next);
        StaysEnabled(w, calls + [next]);
      } else {
        assert calls + [] == calls;
      }
    }
  }

  /**
    Session safety in the runtime: from a fresh state, a reachable state lets the next call
    reuse the session only when the last call seen succeeded on the model now predicted, and
    every transcript of the reusing calls before it is under the limit.
   */
  lemma RunsReuseSafely(cfg: Config, call: Telling, l: Live, es: seq<Event>, max: int, next: Call)
    requires l.v.s.walking == Some(Fresh(max)) && KeepsLadder(cfg, call, l, es)
    requires var calls := Calls(cfg, call, l, es);
      forall i :: 0 <= i < |calls| ==> WellReported(calls[i])
    requires WellReported(next)
    requires var walking := Run(cfg, l, es).v.s.walking; walking.Some? && Reuses(walking.value, next)
    ensures var calls := Calls(cfg, call, l, es);
      && calls != [] && !calls[|calls| - 1].failed && calls[|calls| - 1].model == next.predicted
      && forall j :: 0 <= j < |calls| && ReusesFrom(max, calls, j) ==>
           Transcript(calls[j], GraphRun(Fresh(max), calls[..j]).tokensSeen) < Limit(max)
  {
    RunsWalkTheLadder(cfg, call, l, es, Fresh(max));
    ReuseAfter(max, Calls(cfg, call, l, es), next);
  }
}

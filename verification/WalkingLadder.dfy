/**
  The walking-agent ladder, written twice in the source: once over the engine's own
  fields, once over the state in the snapshot. The two agree, call by call, exactly
  when no retry comes without feedback and no successful call hides its model.
 */
module WalkingLadder {
  import opened State
  import opened Strings
  import opened NodeTypes
  import opened Events
  import ExecutorNode

  const DEFAULT_MAX_CONTEXT_TOKENS := 120_000

  function Limit(configured: int): int {
    if configured > 0 then configured else DEFAULT_MAX_CONTEXT_TOKENS
  }

  /** One executor call: what is known before it, and what it reports. */
  datatype Call = Call(
    predicted: string,
    feedback: string,
    attempts: nat,
    failed: bool,
    model: string,
    input: int,
    cacheRead: int,
    cacheCreation: int,
    output: int)

  /** The size of the transcript a reusing call leaves, given the tokens seen before it. */
  function Transcript(call: Call, seen: int): int {
    if call.cacheRead + call.cacheCreation == 0 then seen + call.input + call.output
    else call.cacheRead + call.cacheCreation
  }

  // ---------- The graph path ----------

  /** decideWalking on an enabled state: reuse the session, or start fresh. */
  predicate Reuses(w: Walking, call: Call) {
    && w.prevModel != ""
    && call.predicted != ""
    && call.predicted == w.prevModel
    && TrimSpace(call.feedback) == ""
    && w.tokensSeen < Limit(w.maxContextTokens)
  }

  /** nextWalkingState. */
  function NextWalking(w: Walking, call: Call, active: bool): Walking {
    if call.failed then w.(prevModel := "", tokensSeen := 0)
    else
      var model := if call.model != "" then call.model else w.prevModel;
      var seen :=
        if !active then 0
        else if Transcript(call, w.tokensSeen) > w.tokensSeen then Transcript(call, w.tokensSeen) else w.tokensSeen;
      w.(prevModel := model, tokensSeen := seen)
  }

  // ---------- The legacy path ----------

  /** The engine's fields walkingExecutorModel and walkingTokensSeen. */
  class Engine {
    var model: string
    var seen: int
    const limit: int

    constructor (limit: int)
      ensures model == "" && seen == 0 && this.limit == limit
    {
      model, seen, this.limit := "", 0, limit;
    }

    function Fields(): Legacy
      reads this
    {
      Legacy(model, seen)
    }

    /** One turn of executeSubTask's loop, walking part only. */
    method Execute(call: Call) returns (active: bool)
      modifies this
      ensures active == LegacyReuses(old(Fields()), limit, call)
      ensures Fields() == LegacyNext(old(Fields()), limit, call)
    {
      active := false;
      if model == "" || call.predicted == "" {
      } else if call.predicted != model {
        model, seen := "", 0;
      } else if TrimSpace(call.feedback) != "" {
      } else if seen >= limit {
        model, seen := "", 0;
      } else if call.attempts > 0 {
      } else {
        active := true;
      }
      if !call.failed && call.model != "" {
        model := call.model;
        if active {
          var transcript := Transcript(call, seen);
          if transcript > seen {
            seen := transcript;
          }
        } else {
          seen := 0;
        }
      } else if call.failed {
        model, seen := "", 0;
      }
    }
  }

  datatype Legacy = Legacy(model: string, seen: int)

  predicate LegacyReuses(l: Legacy, limit: int, call: Call) {
    && l.model != "" && call.predicted != "" && call.predicted == l.model
    && TrimSpace(call.feedback) == "" && l.seen < limit && call.attempts == 0
  }

  /** The fields are reset before the call on a model boundary and at the watermark. */
  predicate ResetsFirst(l: Legacy, limit: int, call: Call) {
    && l.model != "" && call.predicted != ""
    && (call.predicted != l.model || (TrimSpace(call.feedback) == "" && l.seen >= limit))
  }

  function LegacyNext(l: Legacy, limit: int, call: Call): Legacy {
    var ready := if ResetsFirst(l, limit, call) then Legacy("", 0) else l;
    if call.failed then Legacy("", 0)
    else if call.model == "" then ready
    else if !LegacyReuses(l, limit, call) then Legacy(call.model, 0)
    else
      Legacy(call.model,
             if Transcript(call, ready.seen) > ready.seen then Transcript(call, ready.seen) else ready.seen)
  }

  // ---------- The bisimulation ----------

  predicate Related(w: Walking, l: Legacy, limit: int) {
    w.prevModel == l.model && w.tokensSeen == l.seen && Limit(w.maxContextTokens) == limit
  }

  /** The two rules a call must keep: feedback on retries, a model on success. */
  predicate WellReported(call: Call) {
    && (call.attempts > 0 ==> TrimSpace(call.feedback) != "")
    && (!call.failed ==> call.model != "")
  }

  /** What a successful call without a model must look like for the two states to stay equal. */
  predicate HarmlessSilence(w: Walking, call: Call) {
    if Reuses(w, call) then Transcript(call, w.tokensSeen) <= w.tokensSeen
    else w.tokensSeen == 0 && !(w.prevModel != "" && call.predicted != "" && call.predicted != w.prevModel)
  }

  /**
    One call, exactly: both ladders take the same decision and end in related states
    iff no feedback-less retry would reuse the session and no silent success matters.
   */
  lemma CallAgreesExactly(w: Walking, l: Legacy, limit: int, call: Call)
    requires Related(w, l, limit) && limit > 0
    ensures
      (Reuses(w, call) == LegacyReuses(l, limit, call)
       && Related(NextWalking(w, call, Reuses(w, call)), LegacyNext(l, limit, call), limit))
      <==>
      (!(call.attempts > 0 && Reuses(w, call)) && (call.failed || call.model != "" || HarmlessSilence(w, call)))
  {
  }

  lemma WellReportedAgrees(w: Walking, l: Legacy, limit: int, call: Call)
    requires Related(w, l, limit) && limit > 0 && WellReported(call)
    ensures Reuses(w, call) == LegacyReuses(l, limit, call)
    ensures Related(NextWalking(w, call, Reuses(w, call)), LegacyNext(l, limit, call), limit)
  {
    CallAgreesExactly(w, l, limit, call);
  }

  function GraphRun(w: Walking, calls: seq<Call>): Walking
    decreases |calls|
  {
    if calls == [] then w
    else
      var before := GraphRun(w, calls[..|calls| - 1]);
      NextWalking(before, calls[|calls| - 1], Reuses(before, calls[|calls| - 1]))
  }

  function LegacyRun(l: Legacy, limit: int, calls: seq<Call>): Legacy
    decreases |calls|
  {
    if calls == [] then l
    else LegacyNext(LegacyRun(l, limit, calls[..|calls| - 1]), limit, calls[|calls| - 1])
  }

  /** For every sequence of well-reported calls the two ladders decide alike and stay related. */
  lemma {:induction false} LaddersBisimulate(w: Walking, l: Legacy, limit: int, calls: seq<Call>, k: nat)
    requires Related(w, l, limit) && limit > 0 && k <= |calls|
    requires forall i :: 0 <= i < |calls| ==> WellReported(calls[i])
    ensures Related(GraphRun(w, calls[..k]), LegacyRun(l, limit, calls[..k]), limit)
    ensures k < |calls| ==>
      Reuses(GraphRun(w, calls[..k]), calls[k]) == LegacyReuses(LegacyRun(l, limit, calls[..k]), limit, calls[k])
  {
    if k > 0 {
      LaddersBisimulate(w, l, limit, calls, k - 1);
      assert calls[..k][..k - 1] == calls[..k - 1];
      WellReportedAgrees(GraphRun(w, calls[..k - 1]), LegacyRun(l, limit, calls[..k - 1]), limit, calls[k - 1]);
    }
    if k < |calls| {
      WellReportedAgrees(GraphRun(w, calls[..k]), LegacyRun(l, limit, calls[..k]), limit, calls[k]);
    }
  }

  // ---------- When a session is reused ----------

  function Fresh(maxContextTokens: int): Walking {
    Walking(true, "", 0, maxContextTokens)
  }

  /** The decision at call k of a run. */
  predicate ReusesAt(max: int, calls: seq<Call>, k: nat)
    requires k < |calls|
  {
    Reuses(GraphRun(Fresh(max), calls[..k]), calls[k])
  }

  lemma {:induction false} SeenCoversTranscripts(max: int, calls: seq<Call>, k: nat, j: nat)
    requires j < k <= |calls| && forall i :: j <= i < k ==> ReusesAt(max, calls, i) && !calls[i].failed
    ensures GraphRun(Fresh(max), calls[..k]).tokensSeen
         >= Transcript(calls[j], GraphRun(Fresh(max), calls[..j]).tokensSeen)
  {
    assert calls[..k][..k - 1] == calls[..k - 1];
    if j < k - 1 {
      SeenCoversTranscripts(max, calls, k - 1, j);
    }
  }

  lemma {:induction false} LimitIsFixed(w: Walking, calls: seq<Call>)
    ensures GraphRun(w, calls).maxContextTokens == w.maxContextTokens
    decreases |calls|
  {
    if calls == [] {
    } else {
      LimitIsFixed(w, calls[..|calls| - 1]);
    }
  }

  /**
    A session is reused only when there was a call before, it succeeded on the very
    model now predicted, and every transcript since the last fresh call is under the limit.
   */
  lemma ReuseIsSafe(max: int, calls: seq<Call>, k: nat)
    requires k < |calls| && ReusesAt(max, calls, k)
    requires forall i :: 0 <= i < |calls| ==> WellReported(calls[i])
    ensures k > 0 && !calls[k - 1].failed && calls[k - 1].model == calls[k].predicted
    ensures forall j :: 0 <= j < k && (forall i :: j <= i < k ==> ReusesAt(max, calls, i)) ==>
      Transcript(calls[j], GraphRun(Fresh(max), calls[..j]).tokensSeen) < Limit(max)
  {
    assert k > 0;
    assert calls[..k][..k - 1] == calls[..k - 1];
    assert !calls[k - 1].failed;
    LimitIsFixed(Fresh(max), calls[..k]);
    forall j | 0 <= j < k && (forall i :: j <= i < k ==> ReusesAt(max, calls, i))
      ensures Transcript(calls[j], GraphRun(Fresh(max), calls[..j]).tokensSeen) < Limit(max)
    {
      forall i | j <= i < k ensures !calls[i].failed {
        ReuseFollowsSuccess(max, calls, i);
      }
      SeenCoversTranscripts(max, calls, k, j);
    }
  }

  /** In a stretch of reusing calls that is itself followed by a reuse, none failed. */
  lemma ReuseFollowsSuccess(max: int, calls: seq<Call>, i: nat)
    requires i + 1 < |calls| && ReusesAt(max, calls, i + 1)
    ensures !calls[i].failed
  {
    assert calls[..i + 1][..i] == calls[..i];
  }

  /** The calls from j on all reuse the session. */
  predicate ReusesFrom(max: int, calls: seq<Call>, j: nat) {
    forall i :: j <= i < |calls| ==> ReusesAt(max, calls, i)
  }

  lemma DecidesAsBefore(max: int, calls: seq<Call>, next: Call, i: nat)
    requires i < |calls|
    ensures (calls + [next])[..i] == calls[..i] && (calls + [next])[i] == calls[i]
    ensures ReusesAt(max, calls + [next], i) == ReusesAt(max, calls, i)
  {
  }

  lemma TranscriptBelow(max: int, calls: seq<Call>, next: Call, j: nat)
    requires forall i :: 0 <= i < |calls| ==> WellReported(calls[i])
    requires WellReported(next) && Reuses(GraphRun(Fresh(max), calls), next)
    requires j < |calls| && ReusesFrom(max, calls, j)
    ensures Transcript(calls[j], GraphRun(Fresh(max), calls[..j]).tokensSeen) < Limit(max)
  {
    var all := calls + [next];
    assert all[..|calls|] == calls;
    ReuseIsSafe(max, all, |calls|);
    DecidesAsBefore(max, calls, next, j);
    forall i | j <= i < |calls| ensures ReusesAt(max, all, i) {
      DecidesAsBefore(max, calls, next, i);
    }
  }

  /** The same, of a call that is about to follow. */
  lemma ReuseAfter(max: int, calls: seq<Call>, next: Call)
    requires forall i :: 0 <= i < |calls| ==> WellReported(calls[i])
    requires WellReported(next) && Reuses(GraphRun(Fresh(max), calls), next)
    ensures calls != [] && !calls[|calls| - 1].failed && calls[|calls| - 1].model == next.predicted
    ensures forall j :: 0 <= j < |calls| && ReusesFrom(max, calls, j) ==>
      Transcript(calls[j], GraphRun(Fresh(max), calls[..j]).tokensSeen) < Limit(max)
  {
    forall j | 0 <= j < |calls| && ReusesFrom(max, calls, j)
      ensures Transcript(calls[j], GraphRun(Fresh(max), calls[..j]).tokensSeen) < Limit(max)
    {
      TranscriptBelow(max, calls, next, j);
    }
  }

  // ---------- What the executor commits ----------

  /** The walking state after a write that carries a report. */
  function WalkingAfter(s: HermesState, reported: Option<Walking>): Option<Walking> {
    if reported.None? then s.walking else if reported.value.enabled then reported else None
  }

  lemma FinishRecords(cfg: Config, s: HermesState, res: ExecutorNode.RunResult, status: SubTaskStatus, text: Text,
                      reason: string)
    requires InRange(s)
    ensures Effect(s, NodeWrite(s, ExecutorNode.Finish(cfg, s, res, status, text, reason))).walking
         == WalkingAfter(s, res.walking)
  {
  }

  lemma HandOffRecords(s: HermesState, res: ExecutorNode.RunResult)
    requires InRange(s)
    ensures Effect(s, NodeWrite(s, ExecutorNode.HandOff(s, res))).walking == WalkingAfter(s, res.walking)
  {
  }

  /**
    The executor records the walking state that the runner reports, a disabled one by
    clearing it, unless the call failed under failure pause: there the reset after an
    error is dropped, and a retry may reuse the session that just failed.
   */
  lemma ExecutorRecordsWalking(cfg: Config, s: HermesState, a: ExecutorNode.RunAnswer, now: int)
    requires InRange(s) && !AlreadyDone(s.plan[s.currentIdx])
    ensures var out := ExecutorNode.Handle(cfg, s, a, now);
      out.Ok? && Effect(s, NodeWrite(s, out.value)).walking ==
        if a.err.Some? && cfg.failurePause then s.walking else WalkingAfter(s, a.res.walking)
  {
    if a.err.Some? {
      if !cfg.failurePause {
        FinishRecords(cfg, s, a.res, SubFailed, a.err.value, "subtask_failed");
      }
    } else if cfg.strictReview {
      HandOffRecords(s, a.res);
    } else {
      FinishRecords(cfg, s, a.res, SubDone, a.res.text, "subtask_done");
    }
  }

  /** Concretely: after a failing call under failure pause the next call still reuses the session. */
  lemma PausedFailureReuses(cfg: Config, s: HermesState, a: ExecutorNode.RunAnswer, now: int, failing: Call, next: Call)
    requires InRange(s) && !AlreadyDone(s.plan[s.currentIdx]) && cfg.failurePause && a.err.Some?
    requires s.walking.Some? && s.walking.value.enabled && failing.failed && Reuses(s.walking.value, next)
    requires a.res.walking == Some(NextWalking(s.walking.value, failing, Reuses(s.walking.value, failing)))
    ensures !Reuses(a.res.walking.value, next)
    ensures var out := ExecutorNode.Handle(cfg, s, a, now);
      out.Ok? && var s' := Effect(s, NodeWrite(s, out.value)); s'.walking.Some? && Reuses(s'.walking.value, next)
  {
    ExecutorRecordsWalking(cfg, s, a, now);
  }
}

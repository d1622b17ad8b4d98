/**
  Replanning: which sub-tasks of a reviewed plan survive, how they are merged in
  front of a fresh plan, and the coordinator that counts the attempts.
 */
module PartialRetry {
  import opened State
  import opened Strings
  import opened RollingSummary
  import opened NodeTypes
  import ExecutorNode

  datatype SubTaskScore = SubTaskScore(subTaskID: string, score: int)

  datatype Review = Review(verdict: string, overallScore: int, scores: seq<SubTaskScore>, model: string)

  /** The reviewer's last score for an id. */
  function ScoreFor(scores: seq<SubTaskScore>, id: string): Option<int>
    decreases |scores|
  {
    if scores == [] then None
    else
      var last := scores[|scores| - 1];
      if TrimSpace(last.subTaskID) != "" && TrimSpace(last.subTaskID) == id then Some(last.score)
      else ScoreFor(scores[..|scores| - 1], id)
  }

  function Threshold(t: int): int {
    if t <= 0 then 60 else t
  }

  /** Good enough to keep: Done and scored at or above the threshold. */
  predicate Keeps(review: Review, threshold: int, sub: SubTask) {
    var score := ScoreFor(review.scores, sub.id);
    score.Some? && score.value >= Threshold(threshold) && sub.status == SubDone
  }

  function Filter(plan: seq<SubTask>, review: Review, threshold: int, kept: bool): (r: seq<SubTask>)
    ensures forall i :: 0 <= i < |r| ==> Keeps(review, threshold, r[i]) == kept
    decreases |plan|
  {
    if plan == [] then []
    else
      var rest := Filter(plan[..|plan| - 1], review, threshold, kept);
      var last := plan[|plan| - 1];
      if Keeps(review, threshold, last) == kept then rest + [last] else rest
  }

  datatype PartialPlan = PartialPlan(preserved: seq<SubTask>, failed: seq<SubTask>, accumulated: Text)

  const NOTHING_PRESERVED := PartialPlan([], [], [])

  function Transcript(cfg: Config, preserved: seq<SubTask>): Text
    decreases |preserved|
  {
    if preserved == [] then []
    else
      ExecutorNode.AppendSummary(cfg, Transcript(cfg, preserved[..|preserved| - 1]), preserved[|preserved| - 1].result)
  }

  /** A split counts only when both parts are non-empty. */
  function Split(cfg: Config, review: Review, plan: seq<SubTask>): PartialPlan {
    var preserved := Filter(plan, review, cfg.scoreThreshold, true);
    var failed := Filter(plan, review, cfg.scoreThreshold, false);
    if preserved == [] || failed == [] then NOTHING_PRESERVED
    else PartialPlan(preserved, failed, Transcript(cfg, preserved))
  }

  ghost predicate Scores(table: map<string, int>, scores: seq<SubTaskScore>) {
    forall id :: ScoreFor(scores, id) == if id in table then Some(table[id]) else None
  }

  method IndexScores(scores: seq<SubTaskScore>) returns (table: map<string, int>)
    ensures Scores(table, scores)
  {
    table := map[];
    for i := 0 to |scores|
      invariant Scores(table, scores[..i])
    {
      assert scores[..i + 1][..i] == scores[..i];
      var id := TrimSpace(scores[i].subTaskID);
      if id != "" {
        table := table[id := scores[i].score];
      }
    }
    assert scores[..|scores|] == scores;
  }

  lemma {:induction false} NoScoresKeepNothing(plan: seq<SubTask>, review: Review, threshold: int)
    requires forall id :: ScoreFor(review.scores, id) == None
    ensures Filter(plan, review, threshold, true) == []
    decreases |plan|
  {
    if plan == [] {
    } else {
      NoScoresKeepNothing(plan[..|plan| - 1], review, threshold);
    }
  }

  /** buildPartialRetryPlan: one pass over the old plan, summary included. */
  method BuildPartialRetryPlan(cfg: Config, review: Review, plan: seq<SubTask>) returns (r: PartialPlan)
    ensures r == Split(cfg, review, plan)
  {
    var table := IndexScores(review.scores);
    if |review.scores| == 0 || |plan| == 0 || |table| == 0 {
      assert forall id :: ScoreFor(review.scores, id) == None || plan == [];
      if plan != [] {
        NoScoresKeepNothing(plan, review, cfg.scoreThreshold);
      }
      return NOTHING_PRESERVED;
    }
    var preserved, failed: seq<SubTask>, accumulated: Text := [], [], [];
    for i := 0 to |plan|
      invariant preserved == Filter(plan[..i], review, cfg.scoreThreshold, true)
      invariant failed == Filter(plan[..i], review, cfg.scoreThreshold, false)
      invariant accumulated == Transcript(cfg, preserved)
    {
      var sub := plan[i];
      assert plan[..i + 1][..i] == plan[..i];
      assert ScoreFor(review.scores, sub.id) == if sub.id in table then Some(table[sub.id]) else None;
      if sub.id in table && table[sub.id] >= Threshold(cfg.scoreThreshold) && sub.status == SubDone {
        preserved := preserved + [sub];
        assert preserved[..|preserved| - 1] == Filter(plan[..i], review, cfg.scoreThreshold, true);
        var updated, _ := AppendResult(cfg.extract, accumulated, sub.result, |preserved|);
        accumulated := updated;
      } else {
        failed := failed + [sub];
      }
    }
    assert plan[..|plan|] == plan;
    if |preserved| == 0 || |failed| == 0 {
      return NOTHING_PRESERVED;
    }
    return PartialPlan(preserved, failed, accumulated);
  }

  /** The positions of the kept, or of the dropped, entries, in order. */
  function Positions(plan: seq<SubTask>, review: Review, threshold: int, kept: bool): (r: seq<nat>)
    decreases |plan|
  {
    if plan == [] then []
    else
      var rest := Positions(plan[..|plan| - 1], review, threshold, kept);
      if Keeps(review, threshold, plan[|plan| - 1]) == kept then rest + [|plan| - 1] else rest
  }

  /**
    Preserved and failed partition the old plan in order: each part lists its
    entries at increasing positions (SplitInOrder), and every position is in
    exactly one part (SplitCovers).
   */
  lemma {:induction false} SplitInOrder(plan: seq<SubTask>, review: Review, threshold: int, kept: bool)
    ensures var part, at := Filter(plan, review, threshold, kept), Positions(plan, review, threshold, kept);
      && |part| == |at|
      && (forall i :: 0 <= i < |at| ==> at[i] < |plan| && part[i] == plan[at[i]])
      && (forall i, j :: 0 <= i < j < |at| ==> at[i] < at[j])
    decreases |plan|
  {
    if plan == [] {
    } else {
      SplitInOrder(plan[..|plan| - 1], review, threshold, kept);
    }
  }

  lemma PositionsBelow(plan: seq<SubTask>, review: Review, threshold: int, kept: bool, p: nat)
    requires p >= |plan|
    ensures p !in Positions(plan, review, threshold, kept)
    decreases |plan|
  {
  }

  lemma {:induction false} SplitCovers(plan: seq<SubTask>, review: Review, threshold: int, p: nat)
    requires p < |plan|
    ensures p in Positions(plan, review, threshold, true) <==> p !in Positions(plan, review, threshold, false)
    decreases |plan|
  {
    var n := |plan| - 1;
    PositionsBelow(plan[..n], review, threshold, true, n);
    PositionsBelow(plan[..n], review, threshold, false, n);
    if p < n {
      SplitCovers(plan[..n], review, threshold, p);
    }
  }
}

module PlanMerge {
  import opened State
  import opened Strings

  function DecInt(n: int): string {
    if n < 0 then "-" + Dec(-n) else Dec(n)
  }

  /** "retry<attempt>-s<n>". */
  function Synthetic(attempt: int, n: nat): string {
    "retry" + DecInt(attempt) + "-s" + Dec(n)
  }

  /** The ids the merge registers for the preserved entries: trimmed, blanks left out. */
  function PreservedIDs(preserved: seq<SubTask>): set<string>
    decreases |preserved|
  {
    if preserved == [] then {}
    else
      var before := PreservedIDs(preserved[..|preserved| - 1]);
      var id := TrimSpace(preserved[|preserved| - 1].id);
      if id != "" then before + {id} else before
  }

  function IDs(plan: seq<SubTask>): set<string>
    decreases |plan|
  {
    if plan == [] then {} else IDs(plan[..|plan| - 1]) + {plan[|plan| - 1].id}
  }

  lemma IDsAppend(plan: seq<SubTask>, st: SubTask)
    ensures IDs(plan + [st]) == IDs(plan) + {st.id}
  {
    assert (plan + [st])[..|plan|] == plan;
  }

  predicate Renames(seen: set<string>, id: string) {
    TrimSpace(id) == "" || TrimSpace(id) in seen
  }

  function Rename(seen: set<string>, st: SubTask, attempt: int, n: nat): SubTask {
    if Renames(seen, st.id) then st.(id := Synthetic(attempt, n)) else st
  }

  /** The first n replanned entries after renaming. */
  function Renamed(seen: set<string>, replanned: seq<SubTask>, attempt: int, n: nat): (r: seq<SubTask>)
    requires n <= |replanned|
    ensures |r| == n
  {
    if n == 0 then []
    else
      var before := Renamed(seen, replanned, attempt, n - 1);
      before + [Rename(seen + IDs(before), replanned[n - 1], attempt, n)]
  }

  function Merged(preserved: seq<SubTask>, replanned: seq<SubTask>, attempt: int): (r: seq<SubTask>)
    ensures |r| == |preserved| + |replanned|
    ensures preserved <= r
  {
    if preserved == [] then replanned
    else preserved + Renamed(PreservedIDs(preserved), replanned, attempt, |replanned|)
  }

  lemma RenameStep(preserved: seq<SubTask>, registered: set<string>, replanned: seq<SubTask>, attempt: int, n: nat)
    requires n < |replanned|
    ensures var before := Renamed(registered, replanned, attempt, n);
      var after := Renamed(registered, replanned, attempt, n + 1);
      var st := Rename(registered + IDs(before), replanned[n], attempt, n + 1);
      && preserved + after == (preserved + before) + [st]
      && registered + IDs(after) == (registered + IDs(before)) + {st.id}
  {
    var before := Renamed(registered, replanned, attempt, n);
    IDsAppend(before, Rename(registered + IDs(before), replanned[n], attempt, n + 1));
  }

  /** mergePreservedSubTasks, with its seen table. */
  method MergePreservedSubTasks(preserved: seq<SubTask>, replanned: seq<SubTask>, attempt: int)
    returns (merged: seq<SubTask>)
    ensures merged == Merged(preserved, replanned, attempt)
  {
    if |preserved| == 0 {
      return replanned;
    }
    merged := [];
    var seen: set<string> := {};
    for i := 0 to |preserved|
      invariant merged == preserved[..i]
      invariant seen == PreservedIDs(preserved[..i])
    {
      assert preserved[..i + 1][..i] == preserved[..i];
      merged := merged + [preserved[i]];
      var id := TrimSpace(preserved[i].id);
      if id != "" {
        seen := seen + {id};
      }
    }
    assert preserved[..|preserved|] == preserved;
    ghost var registered := seen;
    for n := 0 to |replanned|
      invariant merged == preserved + Renamed(registered, replanned, attempt, n)
      invariant seen == registered + IDs(Renamed(registered, replanned, attempt, n))
    {
      RenameStep(preserved, registered, replanned, attempt, n);
      var st := replanned[n];
      if Renames(seen, st.id) {
        st := st.(id := Synthetic(attempt, n + 1));
      }
      seen := seen + {st.id};
      merged := merged + [st];
    }
  }

  ghost predicate DistinctIDs(plan: seq<SubTask>) {
    forall i, j :: 0 <= i < j < |plan| ==> plan[i].id != plan[j].id
  }

  /** The merged plan before the i-th planner entry is added. */
  function Before(preserved: seq<SubTask>, replanned: seq<SubTask>, attempt: int, i: nat): seq<SubTask>
    requires i <= |replanned|
  {
    preserved + Renamed(PreservedIDs(preserved), replanned, attempt, i)
  }

  /** Whether the merge renames the i-th planner entry. */
  predicate RenamesAt(preserved: seq<SubTask>, replanned: seq<SubTask>, attempt: int, i: nat)
    requires i < |replanned|
  {
    var registered := PreservedIDs(preserved);
    Renames(registered + IDs(Renamed(registered, replanned, attempt, i)), replanned[i].id)
  }

  /** A made-up id that is taken already: the code does not look it up. */
  predicate SyntheticTaken(preserved: seq<SubTask>, replanned: seq<SubTask>, attempt: int, i: nat)
    requires i < |replanned|
  {
    && RenamesAt(preserved, replanned, attempt, i)
    && Synthetic(attempt, i + 1) in IDs(Before(preserved, replanned, attempt, i))
  }

  /** An id padded with blanks that repeats: the code looks up its trimmed form only. */
  predicate PaddedRepeat(preserved: seq<SubTask>, replanned: seq<SubTask>, attempt: int, i: nat)
    requires i < |replanned|
  {
    !RenamesAt(preserved, replanned, attempt, i) && replanned[i].id in IDs(Before(preserved, replanned, attempt, i))
  }

  ghost predicate HasID(plan: seq<SubTask>, id: string) {
    exists i :: 0 <= i < |plan| && plan[i].id == id
  }

  lemma OneMoreID(plan: seq<SubTask>, st: SubTask, id: string)
    ensures HasID(plan + [st], id) <==> HasID(plan, id) || st.id == id
  {
    var more := plan + [st];
    assert more[|plan|] == st;
    if i :| 0 <= i < |plan| && plan[i].id == id {
      assert more[i] == plan[i];
    }
  }

  lemma {:induction false} InIDs(plan: seq<SubTask>, id: string)
    ensures id in IDs(plan) <==> HasID(plan, id)
    decreases |plan|
  {
    if plan == [] {
    } else {
      var before, last := plan[..|plan| - 1], plan[|plan| - 1];
      InIDs(before, id);
      assert plan == before + [last];
      OneMoreID(before, last, id);
    }
  }

  lemma DistinctAppend(plan: seq<SubTask>, st: SubTask)
    ensures DistinctIDs(plan + [st]) <==> DistinctIDs(plan) && st.id !in IDs(plan)
  {
    var grown := plan + [st];
    InIDs(plan, st.id);
    assert forall i :: 0 <= i < |plan| ==> grown[i] == plan[i];
    if DistinctIDs(grown) {
      forall i | 0 <= i < |plan| ensures plan[i].id != st.id {
        assert grown[i].id != grown[|plan|].id;
      }
      forall i, j | 0 <= i < j < |plan| ensures plan[i].id != plan[j].id {
        assert grown[i].id != grown[j].id;
      }
    }
  }

  /** The id that entry i ends up with is in the merge already. */
  predicate BringsTaken(preserved: seq<SubTask>, replanned: seq<SubTask>, attempt: int, i: nat)
    requires i < |replanned|
  {
    SyntheticTaken(preserved, replanned, attempt, i) || PaddedRepeat(preserved, replanned, attempt, i)
  }

  /** None of the first n planner entries brings an id that is taken. */
  predicate NoClash(preserved: seq<SubTask>, replanned: seq<SubTask>, attempt: int, n: nat)
    requires n <= |replanned|
  {
    n == 0
    || (NoClash(preserved, replanned, attempt, n - 1)
        && !BringsTaken(preserved, replanned, attempt, n - 1))
  }

  /** The id the n-th entry ends up with is taken exactly in the two clashing cases. */
  lemma ClashAt(preserved: seq<SubTask>, replanned: seq<SubTask>, attempt: int, n: nat) returns (st: SubTask)
    requires n < |replanned|
    ensures Before(preserved, replanned, attempt, n + 1) == Before(preserved, replanned, attempt, n) + [st]
    ensures st.id in IDs(Before(preserved, replanned, attempt, n))
       <==> BringsTaken(preserved, replanned, attempt, n)
  {
    var registered := PreservedIDs(preserved);
    st := Rename(registered + IDs(Renamed(registered, replanned, attempt, n)), replanned[n], attempt, n + 1);
    RenameStep(preserved, registered, replanned, attempt, n);
  }

  lemma {:induction false} RenamedDistinct(preserved: seq<SubTask>, replanned: seq<SubTask>, attempt: int, n: nat)
    requires n <= |replanned|
    ensures DistinctIDs(Before(preserved, replanned, attempt, n))
       <==> DistinctIDs(preserved) && NoClash(preserved, replanned, attempt, n)
  {
    if n == 0 {
      assert Before(preserved, replanned, attempt, 0) == preserved;
    } else {
      RenamedDistinct(preserved, replanned, attempt, n - 1);
      var st := ClashAt(preserved, replanned, attempt, n - 1);
      DistinctAppend(Before(preserved, replanned, attempt, n - 1), st);
    }
  }

  // ---------- The clashes, seen on the inputs ----------

  /** The made-up id that entry i would get. */
  function MadeUp(attempt: int, i: nat): string {
    Synthetic(attempt, i + 1)
  }

  lemma MadeUpInjective(attempt: int, i: nat, j: nat)
    requires MadeUp(attempt, i) == MadeUp(attempt, j)
    ensures i == j
  {
    var prefix := "retry" + DecInt(attempt) + "-s";
    assert MadeUp(attempt, i)[|prefix|..] == Dec(i + 1);
    assert MadeUp(attempt, j)[|prefix|..] == Dec(j + 1);
    DecInjective(i + 1, j + 1);
  }

  ghost predicate HasTrimmedID(plan: seq<SubTask>, id: string) {
    exists k :: 0 <= k < |plan| && TrimSpace(plan[k].id) == id
  }

  /**
    The planner's id at i is given up: it is blank, a preserved sub-task bears it, an
    earlier entry of the planner does, or it is the id made up for an earlier entry
    that gave up its own.
   */
  ghost predicate GivesUpID(preserved: seq<SubTask>, replanned: seq<SubTask>, attempt: int, i: nat)
    requires i < |replanned|
    decreases i
  {
    var id := TrimSpace(replanned[i].id);
    || id == ""
    || HasTrimmedID(preserved, id)
    || (exists j :: 0 <= j < i && replanned[j].id == id)
    || (exists j :: 0 <= j < i && id == MadeUp(attempt, j) && GivesUpID(preserved, replanned, attempt, j))
  }

  /** The id that entry i ends up with. */
  ghost function FinalID(preserved: seq<SubTask>, replanned: seq<SubTask>, attempt: int, i: nat): string
    requires i < |replanned|
  {
    if GivesUpID(preserved, replanned, attempt, i) then MadeUp(attempt, i) else replanned[i].id
  }

  lemma OneMoreTrimmed(plan: seq<SubTask>, st: SubTask, id: string)
    ensures HasTrimmedID(plan + [st], id) <==> HasTrimmedID(plan, id) || TrimSpace(st.id) == id
  {
    var more := plan + [st];
    assert more[|plan|] == st;
    if k :| 0 <= k < |plan| && TrimSpace(plan[k].id) == id {
      assert more[k] == plan[k];
    }
  }

  lemma {:induction false} PreservedIDsExactly(preserved: seq<SubTask>, id: string)
    ensures id in PreservedIDs(preserved) <==> id != "" && HasTrimmedID(preserved, id)
    decreases |preserved|
  {
    if preserved == [] {
    } else {
      var before, last := preserved[..|preserved| - 1], preserved[|preserved| - 1];
      PreservedIDsExactly(before, id);
      assert preserved == before + [last];
      OneMoreTrimmed(before, last, id);
    }
  }

  /** One of the first n entries ends up with the id. */
  ghost predicate EndsUp(preserved: seq<SubTask>, replanned: seq<SubTask>, attempt: int, n: nat, id: string)
    requires n <= |replanned|
  {
    exists j :: 0 <= j < n && FinalID(preserved, replanned, attempt, j) == id
  }

  lemma OneMoreEndsUp(preserved: seq<SubTask>, replanned: seq<SubTask>, attempt: int, n: nat, id: string)
    requires n < |replanned|
    ensures EndsUp(preserved, replanned, attempt, n + 1, id) <==>
      EndsUp(preserved, replanned, attempt, n, id) || FinalID(preserved, replanned, attempt, n) == id
  {
  }

  /** The merge renames exactly the entries that give up their ids. */
  lemma {:induction false} RenamesExactly(preserved: seq<SubTask>, replanned: seq<SubTask>, attempt: int, i: nat)
    requires i < |replanned|
    ensures RenamesAt(preserved, replanned, attempt, i) <==> GivesUpID(preserved, replanned, attempt, i)
    decreases i, 1
  {
    var id := TrimSpace(replanned[i].id);
    PreservedIDsExactly(preserved, id);
    FinalIDs(preserved, replanned, attempt, i, id);
    if id != "" && !HasTrimmedID(preserved, id) {
      EndsUpExactly(preserved, replanned, attempt, i);
    }
  }

  /** An earlier entry ends up with this entry's trimmed id iff one of them bore it, or it was made up for one. */
  lemma EndsUpExactly(preserved: seq<SubTask>, replanned: seq<SubTask>, attempt: int, i: nat)
    requires i < |replanned|
    requires TrimSpace(replanned[i].id) != "" && !HasTrimmedID(preserved, TrimSpace(replanned[i].id))
    ensures var id := TrimSpace(replanned[i].id);
      EndsUp(preserved, replanned, attempt, i, id) <==>
        || (exists j :: 0 <= j < i && replanned[j].id == id)
        || (exists j :: 0 <= j < i && id == MadeUp(attempt, j) && GivesUpID(preserved, replanned, attempt, j))
  {
    var id := TrimSpace(replanned[i].id);
    if j :| 0 <= j < i && replanned[j].id == id {
      EarlierIDStays(preserved, replanned, attempt, i, j);
    }
    if j :| 0 <= j < i && id == MadeUp(attempt, j) && GivesUpID(preserved, replanned, attempt, j) {
      assert FinalID(preserved, replanned, attempt, j) == id;
    }
  }

  /** The ids of the first n entries after renaming. */
  lemma {:induction false} FinalIDs(preserved: seq<SubTask>, replanned: seq<SubTask>, attempt: int, n: nat, id: string)
    requires n <= |replanned|
    ensures id in IDs(Renamed(PreservedIDs(preserved), replanned, attempt, n)) <==>
      EndsUp(preserved, replanned, attempt, n, id)
    decreases n, 0
  {
    if n == 0 {
    } else {
      FinalIDs(preserved, replanned, attempt, n - 1, id);
      RenamesExactly(preserved, replanned, attempt, n - 1);
      var before := Renamed(PreservedIDs(preserved), replanned, attempt, n - 1);
      IDsAppend(before, Rename(PreservedIDs(preserved) + IDs(before), replanned[n - 1], attempt, n));
      OneMoreEndsUp(preserved, replanned, attempt, n - 1, id);
    }
  }

  /** An earlier entry with this entry's trimmed id leaves that id to be found, kept or renamed. */
  lemma {:induction false} EarlierIDStays(preserved: seq<SubTask>, replanned: seq<SubTask>, attempt: int, i: nat,
                                          j: nat)
    requires j < i < |replanned| && replanned[j].id == TrimSpace(replanned[i].id)
    requires TrimSpace(replanned[i].id) != "" && !HasTrimmedID(preserved, TrimSpace(replanned[i].id))
    ensures EndsUp(preserved, replanned, attempt, i, TrimSpace(replanned[i].id))
    decreases j
  {
    var id := TrimSpace(replanned[i].id);
    TrimSpaceTwice(replanned[i].id);
    if GivesUpID(preserved, replanned, attempt, j) {
      if k :| 0 <= k < j && replanned[k].id == id {
        EarlierIDStays(preserved, replanned, attempt, i, k);
      } else {
        var k :| 0 <= k < j && id == MadeUp(attempt, k) && GivesUpID(preserved, replanned, attempt, k);
        assert FinalID(preserved, replanned, attempt, k) == id;
      }
    } else {
      assert FinalID(preserved, replanned, attempt, j) == id;
    }
  }

  /** Entry i gives up its id, and the id made up for it is taken: the code does not look it up. */
  ghost predicate MadeUpClash(preserved: seq<SubTask>, replanned: seq<SubTask>, attempt: int, i: nat)
    requires i < |replanned|
  {
    && GivesUpID(preserved, replanned, attempt, i)
    && (|| HasID(preserved, MadeUp(attempt, i))
        || exists j :: 0 <= j < i && replanned[j].id == MadeUp(attempt, i)
                       && !GivesUpID(preserved, replanned, attempt, j))
  }

  /**
    Entry i keeps an id that an earlier entry bears, letter for letter: only a padded id can,
    as it is looked up trimmed.
   */
  ghost predicate PaddedClash(preserved: seq<SubTask>, replanned: seq<SubTask>, attempt: int, i: nat)
    requires i < |replanned|
  {
    && !GivesUpID(preserved, replanned, attempt, i)
    && exists j :: 0 <= j < i && replanned[j].id == replanned[i].id
  }

  lemma MadeUpClashExactly(preserved: seq<SubTask>, replanned: seq<SubTask>, attempt: int, i: nat)
    requires i < |replanned|
    ensures SyntheticTaken(preserved, replanned, attempt, i) <==> MadeUpClash(preserved, replanned, attempt, i)
  {
    var id := MadeUp(attempt, i);
    RenamesExactly(preserved, replanned, attempt, i);
    BeforeIDs(preserved, replanned, attempt, i, id);
    forall j | 0 <= j < i && MadeUp(attempt, j) == id ensures false {
      MadeUpInjective(attempt, i, j);
    }
    if j :| 0 <= j < i && FinalID(preserved, replanned, attempt, j) == id {
      assert !GivesUpID(preserved, replanned, attempt, j);
    }
    if j :| 0 <= j < i && replanned[j].id == id && !GivesUpID(preserved, replanned, attempt, j) {
      assert FinalID(preserved, replanned, attempt, j) == id;
    }
  }

  lemma BeforeIDs(preserved: seq<SubTask>, replanned: seq<SubTask>, attempt: int, i: nat, id: string)
    requires i < |replanned|
    ensures id in IDs(Before(preserved, replanned, attempt, i)) <==>
      HasID(preserved, id) || EndsUp(preserved, replanned, attempt, i, id)
  {
    var renamed := Renamed(PreservedIDs(preserved), replanned, attempt, i);
    FinalIDs(preserved, replanned, attempt, i, id);
    InIDs(preserved, id);
    IDsConcat(preserved, renamed);
  }

  lemma {:induction false} IDsConcat(a: seq<SubTask>, b: seq<SubTask>)
    ensures IDs(a + b) == IDs(a) + IDs(b)
    decreases |b|
  {
    if b == [] {
      assert a + b == a;
    } else {
      assert (a + b)[..|a + b| - 1] == a + b[..|b| - 1];
      IDsConcat(a, b[..|b| - 1]);
    }
  }

  /** An entry that keeps its id repeats neither a preserved id nor a made-up one. */
  lemma KeptIDIsOwn(preserved: seq<SubTask>, replanned: seq<SubTask>, attempt: int, i: nat)
    requires i < |replanned| && !GivesUpID(preserved, replanned, attempt, i)
    ensures !HasID(preserved, replanned[i].id)
    ensures forall j :: 0 <= j < i && GivesUpID(preserved, replanned, attempt, j) ==>
      replanned[i].id != MadeUp(attempt, j)
  {
    forall j | 0 <= j < i && replanned[i].id == MadeUp(attempt, j)
      ensures TrimSpace(replanned[i].id) == replanned[i].id
    {
      MadeUpIsTrimmed(attempt, j);
    }
  }

  lemma MadeUpIsTrimmed(attempt: int, i: nat)
    ensures TrimSpace(MadeUp(attempt, i)) == MadeUp(attempt, i)
  {
    var id, digits := MadeUp(attempt, i), Dec(i + 1);
    assert id[0] == 'r' && id[|id| - 1] == digits[|digits| - 1];
    TrimSpaceId(id);
  }

  lemma PaddedClashExactly(preserved: seq<SubTask>, replanned: seq<SubTask>, attempt: int, i: nat)
    requires i < |replanned|
    ensures PaddedRepeat(preserved, replanned, attempt, i) <==> PaddedClash(preserved, replanned, attempt, i)
  {
    var id := replanned[i].id;
    RenamesExactly(preserved, replanned, attempt, i);
    BeforeIDs(preserved, replanned, attempt, i, id);
    if !GivesUpID(preserved, replanned, attempt, i) {
      KeptIDIsOwn(preserved, replanned, attempt, i);
      if j :| 0 <= j < i && replanned[j].id == id {
        SameIDKept(preserved, replanned, attempt, i, j);
        assert FinalID(preserved, replanned, attempt, j) == id;
      }
    }
  }

  /** Of two entries with one id, the earlier keeps it when the later does. */
  lemma SameIDKept(preserved: seq<SubTask>, replanned: seq<SubTask>, attempt: int, i: nat, j: nat)
    requires j < i < |replanned| && replanned[j].id == replanned[i].id && !GivesUpID(preserved, replanned, attempt, i)
    ensures !GivesUpID(preserved, replanned, attempt, j)
  {
  }

  ghost predicate Clashes(preserved: seq<SubTask>, replanned: seq<SubTask>, attempt: int, i: nat)
    requires i < |replanned|
  {
    MadeUpClash(preserved, replanned, attempt, i) || PaddedClash(preserved, replanned, attempt, i)
  }

  lemma ClashExactly(preserved: seq<SubTask>, replanned: seq<SubTask>, attempt: int, i: nat)
    requires i < |replanned|
    ensures BringsTaken(preserved, replanned, attempt, i) <==> Clashes(preserved, replanned, attempt, i)
  {
    MadeUpClashExactly(preserved, replanned, attempt, i);
    PaddedClashExactly(preserved, replanned, attempt, i);
  }

  lemma {:induction false} NoClashMeans(preserved: seq<SubTask>, replanned: seq<SubTask>, attempt: int, n: nat, i: nat)
    requires i < n <= |replanned| && NoClash(preserved, replanned, attempt, n)
    ensures !Clashes(preserved, replanned, attempt, i)
  {
    if i == n - 1 {
      ClashExactly(preserved, replanned, attempt, i);
    } else {
      NoClashMeans(preserved, replanned, attempt, n - 1, i);
    }
  }

  lemma {:induction false} NoClashFollows(preserved: seq<SubTask>, replanned: seq<SubTask>, attempt: int, n: nat)
    requires n <= |replanned| && forall i :: 0 <= i < n ==> !Clashes(preserved, replanned, attempt, i)
    ensures NoClash(preserved, replanned, attempt, n)
  {
    if n == 0 {
    } else {
      NoClashFollows(preserved, replanned, attempt, n - 1);
      ClashExactly(preserved, replanned, attempt, n - 1);
    }
  }

  /**
    The merge promises unique ids. It keeps the promise exactly when the preserved ids
    are unique, no entry gives up its id for a made-up one that is taken, and no padded
    id repeats; with nothing preserved it returns the planner's ids unchecked.
   */
  lemma MergedIDsDistinctExactly(preserved: seq<SubTask>, replanned: seq<SubTask>, attempt: int)
    ensures preserved == [] ==> (DistinctIDs(Merged(preserved, replanned, attempt)) <==> DistinctIDs(replanned))
    ensures preserved != [] ==>
      (DistinctIDs(Merged(preserved, replanned, attempt)) <==>
        && DistinctIDs(preserved)
        && forall i :: 0 <= i < |replanned| ==> !Clashes(preserved, replanned, attempt, i))
  {
    RenamedDistinct(preserved, replanned, attempt, |replanned|);
    if NoClash(preserved, replanned, attempt, |replanned|) {
      forall i | 0 <= i < |replanned| ensures !Clashes(preserved, replanned, attempt, i) {
        NoClashMeans(preserved, replanned, attempt, |replanned|, i);
      }
    } else if forall i :: 0 <= i < |replanned| ==> !Clashes(preserved, replanned, attempt, i) {
      NoClashFollows(preserved, replanned, attempt, |replanned|);
    }
  }

  /** What a caller can rely on: distinct preserved ids, no padding, and nobody using an id of the made-up form. */
  lemma OrdinaryIDsMerge(preserved: seq<SubTask>, replanned: seq<SubTask>, attempt: int)
    requires preserved != [] && DistinctIDs(preserved)
    requires forall i :: 0 <= i < |replanned| ==> TrimSpace(replanned[i].id) == replanned[i].id
    requires forall i :: 0 <= i < |replanned| ==>
      !HasID(preserved, MadeUp(attempt, i)) && !HasID(replanned, MadeUp(attempt, i))
    ensures DistinctIDs(Merged(preserved, replanned, attempt))
  {
    forall i | 0 <= i < |replanned| ensures !Clashes(preserved, replanned, attempt, i) {
      assert forall j :: 0 <= j < i ==> replanned[j].id != MadeUp(attempt, i);
    }
    MergedIDsDistinctExactly(preserved, replanned, attempt);
  }

  /** The clash is real: "a" is renamed to the id the planner itself chose for its first entry. */
  lemma SyntheticClashExample(kept: SubTask, first: SubTask, second: SubTask)
    requires kept.id == "a" && first.id == "retry1-s2" && second.id == "a"
    ensures !DistinctIDs(Merged([kept], [first, second], 1))
  {
    assert [kept][..0] == [];
    assert TrimSpace("a") == "a" && TrimSpace("retry1-s2") == "retry1-s2";
    assert PreservedIDs([kept]) == {"a"};
    var renamed := Renamed({"a"}, [first, second], 1, 1);
    assert renamed == [first];
    assert [first][..0] == [];
    assert IDs([first]) == {"retry1-s2"};
    assert Dec(1) == "1" && Dec(2) == "2";
    assert Synthetic(1, 2) == "retry1-s2";
    var merged := Merged([kept], [first, second], 1);
    assert merged[1].id == merged[2].id;
  }
}

/**
  The in-process bridge between the task reviewer and the replan decider: it holds
  the last rejected review and counts replan attempts. None: nothing recorded yet.
 */
module ReplanCoordinator {
  import opened State
  import opened NodeTypes
  import opened PartialRetry
  import ReviewerNode

  datatype Replanning = Replanning(lastReview: Review, lastPlan: seq<SubTask>, attempts: nat)

  type Coordinator = Option<Replanning>

  function Attempts(c: Coordinator): nat {
    if c.Some? then c.value.attempts else 0
  }

  /** WithDefaults: zero means one retry; disabled means none. */
  function MaxAttempts(cfg: Config): int {
    if !cfg.taskRetryEnabled then 0
    else if cfg.maxTaskRetries == 0 then 1
    else cfg.maxTaskRetries
  }

  function ScoreThreshold(cfg: Config): int {
    if cfg.scoreThreshold == 0 then 60 else cfg.scoreThreshold
  }

  /** The recovery layer's answer for a task review. */
  predicate RecoveryRetries(cfg: Config, attempt: nat, review: Review) {
    && cfg.taskRetryEnabled
    && attempt < MaxAttempts(cfg)
    && review.verdict != ""
    && (review.verdict == "fail" || review.overallScore < ScoreThreshold(cfg))
  }

  predicate WantsReplan(cfg: Config, c: Coordinator, review: Review) {
    RecoveryRetries(cfg, Attempts(c), review)
  }

  /** taskReviewerAdapter.ReviewTask; token telemetry was committed by the review itself. */
  function ReviewTask(cfg: Config, c: Coordinator, s: HermesState, answer: Option<Review>)
    : (Option<ReviewerNode.TaskReviewResult>, Coordinator)
  {
    match answer
    case None => (None, c)
    case Some(review) =>
      var replan := WantsReplan(cfg, c, review);
      (Some(ReviewerNode.TaskReviewResult(review.verdict, replan, review.model, 0, 0, 0.0)),
       if replan then Some(Replanning(review, s.plan, Attempts(c))) else c)
  }

  datatype Decision = Decision(
    goal: string,
    accumulated: Text,
    preserved: seq<SubTask>,
    attemptIdx: int,
    trigger: string)

  const NO_REPLAN := Decision("", [], [], 0, "")

  /** replanDeciderAdapter.DecideReplan; the goal text is a parameter. */
  function DecideReplan(cfg: Config, c: Coordinator, goal: string): (Decision, Coordinator) {
    match c
    case None => (NO_REPLAN, c)
    case Some(r) =>
      var attempt := r.attempts + 1;
      var partial := Split(cfg, r.lastReview, r.lastPlan);
      (if partial.preserved != [] then Decision(goal, partial.accumulated, partial.preserved, attempt, "partial")
       else Decision(goal, [], [], attempt, "full"),
       Some(r.(attempts := attempt)))
  }
}

module ReplanSetupNode {
  import opened State
  import opened Strings
  import opened NodeTypes
  import opened ReplanCoordinator

  /** ASCII blanks only; the decider never produces a blank non-empty text. */
  predicate Blank(t: Text) {
    forall b | b in t :: b == 32 || 9 <= b <= 13
  }

  predicate IsNoop(d: Decision) {
    TrimSpace(d.goal) == "" && Blank(d.accumulated) && d.preserved == [] && TrimSpace(d.trigger) == ""
  }

  function Handle(d: Decision): NodeOutput {
    if IsNoop(d) then NodeOutput([], Planner, "replan_setup_noop", false)
    else
      var rc := ReplanContext(d.goal, d.accumulated, d.preserved, d.attemptIdx, d.trigger);
      NodeOutput([NO_UPDATE.(replan := Some(rc))], Planner,
                 if d.trigger == "partial" then "replan_setup_partial" else "replan_setup_full", false)
  }
}

module PlannerNode {
  import opened State
  import opened NodeTypes
  import PlanMerge

  /** A successful planning session never returns an empty plan (PlannerSession.Plan). */
  type Tasks = ts: seq<SubTask> | |ts| > 0 witness [SubTask("", "", Pending, [], 0, 0, [], [])]

  datatype PlanAnswer =
    | PlanFailed
    | Planned(tasks: Tasks, input: int, output: int, cost: real, sessionID: string)

  function Charged(cfg: Config, u: StateUpdate, a: PlanAnswer): StateUpdate
    requires a.Planned?
  {
    if cfg.plannerModel != "" && (a.input > 0 || a.output > 0 || a.cost != 0.0) then
      var c := PlainCounters(a.input, a.output, a.cost);
      u.(modelUsages := [Usage(cfg.plannerModel, c)],
         phaseUsages := [Usage(PhaseKey("planner", cfg.plannerModel), c)],
         tokenUsageDelta := a.input + a.output)
    else u
  }

  /** The plan the node adopts: preserved work first. */
  function Adopted(s: HermesState, tasks: Tasks): (plan: seq<SubTask>)
    ensures |plan| > 0
  {
    if s.replan.Some? && s.replan.value.preserved != []
    then PlanMerge.Merged(s.replan.value.preserved, tasks, s.replan.value.attemptIdx)
    else tasks
  }

  function Handle(cfg: Config, s: HermesState, answer: PlanAnswer): Result<NodeOutput, NodeError> {
    if answer.PlanFailed? then Err(PlannerError)
    else
      var plan := Adopted(s, answer.tasks);
      if cfg.maxSubTasks > 0 && |plan| > cfg.maxSubTasks then Err(TooManySubTasks(|plan|, cfg.maxSubTasks))
      else
        var u := NO_UPDATE.(
          status := Some(Executing),
          currentIdx := Some(0),
          plan := Some(plan),
          accumulated := if s.replan.Some? then Some(s.replan.value.accumulated) else None,
          clearReplan := s.replan.Some?,
          plannerSession := if answer.sessionID != "" then Some(answer.sessionID) else None);
        Ok(NodeOutput([Charged(cfg, u, answer)], Executor, "plan_ready", false))
  }
}

/**
  Collapsing a batch to one update preserves its meaning exactly when no
  accumulated delta precedes an accumulated replacement in the batch.
 */
module Collapse {
  import opened State
  import opened Reducer
  import Ledger

  /** The separator between two non-empty texts. */
  function Sep(a: Text): Text {
    if a != [] && a[|a| - 1] == NEWLINE then [] else [NEWLINE]
  }

  lemma AppendNonEmpty(a: Text, b: Text)
    requires a != [] && b != []
    ensures AppendDelta(a, b) == a + Sep(a) + b && Sep(AppendDelta(a, b)) == Sep(b)
  {
  }

  lemma AppendAssociates(a: Text, b: Text, c: Text)
    ensures AppendDelta(AppendDelta(a, b), c) == AppendDelta(a, AppendDelta(b, c))
  {
    if a == [] || b == [] || c == [] {
    } else {
      AppendNonEmpty(a, b);
      AppendNonEmpty(b, c);
      AppendNonEmpty(AppendDelta(a, b), c);
      AppendNonEmpty(a, AppendDelta(b, c));
      assert (a + Sep(a) + b) + Sep(b) + c == a + Sep(a) + (b + Sep(b) + c);
    }
  }

  /** Appending a longer delta gives a longer text. */
  lemma AppendGrows(a: Text, b: Text, c: Text)
    requires |b| < |c|
    ensures |AppendDelta(a, b)| < |AppendDelta(a, c)|
  {
  }

  /** All deltas of a batch. */
  function Deltas(us: seq<StateUpdate>): Text
    decreases |us|
  {
    if us == [] then [] else AppendDelta(Deltas(us[..|us| - 1]), us[|us| - 1].accumulatedDelta)
  }

  /** The deltas before the last replacement, and those from it on. */
  function EarlyDeltas(us: seq<StateUpdate>): Text
    decreases |us|
  {
    if us == [] then []
    else if us[|us| - 1].accumulated.Some? then Deltas(us[..|us| - 1])
    else EarlyDeltas(us[..|us| - 1])
  }

  function LateDeltas(us: seq<StateUpdate>): Text
    decreases |us|
  {
    if us == [] then []
    else if us[|us| - 1].accumulated.Some? then us[|us| - 1].accumulatedDelta
    else AppendDelta(LateDeltas(us[..|us| - 1]), us[|us| - 1].accumulatedDelta)
  }

  /** The condition, as a caller can check it before committing. */
  ghost predicate ReplacementsFirst(us: seq<StateUpdate>) {
    forall i, j :: 0 <= i < j < |us| && us[j].accumulated.Some? ==> us[i].accumulatedDelta == []
  }

  lemma {:induction false} DeltasSplit(us: seq<StateUpdate>)
    ensures Deltas(us) == AppendDelta(EarlyDeltas(us), LateDeltas(us))
    decreases |us|
  {
    if us == [] {
    } else {
      var n := |us| - 1;
      DeltasSplit(us[..n]);
      if us[n].accumulated.None? {
        AppendAssociates(EarlyDeltas(us[..n]), LateDeltas(us[..n]), us[n].accumulatedDelta);
      }
    }
  }

  lemma {:induction false} DeltasEmpty(us: seq<StateUpdate>)
    ensures Deltas(us) == [] <==> forall i :: 0 <= i < |us| ==> us[i].accumulatedDelta == []
    decreases |us|
  {
    if us == [] {
    } else {
      var n := |us| - 1;
      DeltasEmpty(us[..n]);
      assert forall i :: 0 <= i < n ==> us[..n][i] == us[i];
    }
  }

  lemma {:induction false} EarlyDeltasEmpty(us: seq<StateUpdate>)
    ensures EarlyDeltas(us) == [] <==> ReplacementsFirst(us)
    decreases |us|
  {
    if us == [] {
    } else {
      var n := |us| - 1;
      EarlyDeltasEmpty(us[..n]);
      assert forall i :: 0 <= i < n ==> us[..n][i] == us[i];
      if us[n].accumulated.Some? {
        DeltasEmpty(us[..n]);
      }
    }
  }

  function WithAccumulated(p: Batch, t: Text): Batch {
    p.(next := p.next.(accumulated := t))
  }

  lemma LedgersPair(s: HermesState, c: StateUpdate, u: StateUpdate)
    ensures var one, two := MergeFields(s, CollapseOne(c, u)), MergeFields(MergeFields(s, c), u);
      one.modelUsages == two.modelUsages && one.phaseUsages == two.phaseUsages
  {
    Ledger.MergeConcat(s.modelUsages, c.modelUsages, u.modelUsages);
    Ledger.MergeConcat(s.phaseUsages, c.phaseUsages, u.phaseUsages);
  }

  lemma ListsPair(s: HermesState, c: StateUpdate, u: StateUpdate)
    ensures var one, two := MergeFields(s, CollapseOne(c, u)), MergeFields(MergeFields(s, c), u);
      one.artifacts == two.artifacts && one.errors == two.errors
  {
    assert s.artifacts + (c.artifacts + u.artifacts) == (s.artifacts + c.artifacts) + u.artifacts;
    assert s.errors + (c.errors + u.errors) == (s.errors + c.errors) + u.errors;
  }

  lemma SlotsPair(s: HermesState, c: StateUpdate, u: StateUpdate)
    ensures var one, two := MergeFields(s, CollapseOne(c, u)), MergeFields(MergeFields(s, c), u);
      one.interrupt == two.interrupt && one.replan == two.replan && one.walking == two.walking
  {
  }

  lemma ScalarsPair(s: HermesState, c: StateUpdate, u: StateUpdate)
    ensures var one, two := MergeFields(s, CollapseOne(c, u)), MergeFields(MergeFields(s, c), u);
      one.budget == two.budget && one.plannerSession == two.plannerSession && one.executorSession == two.executorSession
  {
  }

  lemma UnmergedFields(s: HermesState, u: StateUpdate)
    ensures var m := MergeFields(s, u);
      m == s.(accumulated := m.accumulated, artifacts := m.artifacts, modelUsages := m.modelUsages,
              phaseUsages := m.phaseUsages, budget := m.budget, plannerSession := m.plannerSession,
              executorSession := m.executorSession, interrupt := m.interrupt, errors := m.errors,
              replan := m.replan, walking := m.walking)
  {
  }

  lemma FieldsPair(s: HermesState, c: StateUpdate, u: StateUpdate)
    ensures var one := MergeFields(s, CollapseOne(c, u));
      one == MergeFields(MergeFields(s, c), u).(accumulated := one.accumulated)
  {
    LedgersPair(s, c, u);
    ListsPair(s, c, u);
    SlotsPair(s, c, u);
    ScalarsPair(s, c, u);
    UnmergedFields(s, CollapseOne(c, u));
    UnmergedFields(s, c);
    UnmergedFields(MergeFields(s, c), u);
  }

  /** Absorbing a collapsed pair is absorbing one after the other, but for the accumulated text. */
  lemma AbsorbPair(s: HermesState, c: StateUpdate, u: StateUpdate)
    ensures var one := Absorb(Start(s), CollapseOne(c, u));
      one == WithAccumulated(Absorb(Absorb(Start(s), c), u), one.next.accumulated)
  {
    FieldsPair(s, c, u);
    assert [] + (c.subTaskResults + u.subTaskResults) == ([] + c.subTaskResults) + u.subTaskResults;
  }

  lemma AbsorbIgnoresAccumulated(p: Batch, t: Text, u: StateUpdate)
    ensures var q := Absorb(WithAccumulated(p, t), u);
      q == WithAccumulated(Absorb(p, u), q.next.accumulated)
  {
  }

  lemma AbsorbNothing(s: HermesState)
    ensures Absorb(Start(s), NO_UPDATE) == Start(s)
  {
    assert s.artifacts + [] == s.artifacts && s.errors + [] == s.errors;
  }

  /** A collapsed batch agrees with the batch on every field but the accumulated text. */
  lemma {:induction false} CollapseAgrees(s: HermesState, us: seq<StateUpdate>)
    ensures var one := Absorb(Start(s), Collapsed(us));
      one == WithAccumulated(AbsorbAll(s, us), one.next.accumulated)
    decreases |us|
  {
    if us == [] {
      AbsorbNothing(s);
    } else {
      var n := |us| - 1;
      CollapseAgrees(s, us[..n]);
      var c, u := Collapsed(us[..n]), us[n];
      AbsorbPair(s, c, u);
      AbsorbIgnoresAccumulated(AbsorbAll(s, us[..n]), Absorb(Start(s), c).next.accumulated, u);
    }
  }

  /** The text the last replacement of the batch leaves behind. */
  function Base(s: HermesState, us: seq<StateUpdate>): Text
    decreases |us|
  {
    if us == [] then s.accumulated
    else if us[|us| - 1].accumulated.Some? then us[|us| - 1].accumulated.value
    else Base(s, us[..|us| - 1])
  }

  lemma {:induction false} AccumulatedTexts(s: HermesState, us: seq<StateUpdate>)
    ensures AbsorbAll(s, us).next.accumulated == AppendDelta(Base(s, us), LateDeltas(us))
    ensures Collapsed(us).accumulatedDelta == Deltas(us)
    ensures (if Collapsed(us).accumulated.Some? then Collapsed(us).accumulated.value else s.accumulated) == Base(s, us)
    decreases |us|
  {
    if us == [] {
    } else {
      var n := |us| - 1;
      AccumulatedTexts(s, us[..n]);
      if us[n].accumulated.None? {
        AppendAssociates(Base(s, us), LateDeltas(us[..n]), us[n].accumulatedDelta);
      }
    }
  }

  /** Where the two texts part: the collapsed update replays the early deltas too. */
  lemma CollapsedText(s: HermesState, us: seq<StateUpdate>)
    ensures Absorb(Start(s), Collapsed(us)).next.accumulated
         == AppendDelta(Base(s, us), AppendDelta(EarlyDeltas(us), LateDeltas(us)))
    ensures ReplacementsFirst(us)
       <==> Absorb(Start(s), Collapsed(us)).next.accumulated == AbsorbAll(s, us).next.accumulated
  {
    AccumulatedTexts(s, us);
    DeltasSplit(us);
    EarlyDeltasEmpty(us);
    if EarlyDeltas(us) != [] {
      AppendGrows(Base(s, us), LateDeltas(us), AppendDelta(EarlyDeltas(us), LateDeltas(us)));
    }
  }

  lemma AbsorbSingleton(s: HermesState, u: StateUpdate)
    ensures AbsorbAll(s, [u]) == Absorb(Start(s), u)
  {
    assert [u][..0] == [];
  }

  /**
    The main result: a batch is rejected iff its collapsed form is, and when it is
    accepted the collapsed form yields the same state iff no delta of the batch
    precedes a replacement.
   */
  lemma CollapsePreservesMeaning(s: HermesState, us: seq<StateUpdate>)
    ensures Reduced(s, us).Err? <==> Reduced(s, [Collapsed(us)]).Err?
    ensures Reduced(s, us).Err? ==> Reduced(s, [Collapsed(us)]) == Reduced(s, us)
    ensures Reduced(s, us).Ok? ==> (Reduced(s, [Collapsed(us)]) == Reduced(s, us) <==> ReplacementsFirst(us))
  {
    AbsorbSingleton(s, Collapsed(us));
    CollapseAgrees(s, us);
    CollapsedText(s, us);
    SettleIgnoresAccumulated(AbsorbAll(s, us), Absorb(Start(s), Collapsed(us)).next.accumulated);
  }

  lemma SettleIgnoresAccumulated(p: Batch, t: Text)
    ensures Settle(WithAccumulated(p, t)) == Settle(p).(accumulated := t)
    ensures Settle(p).accumulated == p.next.accumulated
  {
  }
}

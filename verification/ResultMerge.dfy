/**
  How sub-task results are merged: the last report for a key wins, a key already
  on record is overwritten in place, new keys are appended in sorted order.
 */
module ResultMerge {
  import opened State
  import opened Strings

  /** The id when there is one, else the plan index. */
  datatype ResultKey = ById(id: string) | ByIndex(index: int)

  function KeyOf(r: SubTaskResult): ResultKey {
    if r.subTaskID != "" then ById(r.subTaskID) else ByIndex(r.index)
  }

  function Overwrite(existing: SubTaskResult, update: SubTaskResult): SubTaskResult {
    update.(index := if update.index != 0 then update.index else existing.index,
            subTaskID := if update.subTaskID != "" then update.subTaskID else existing.subTaskID)
  }

  /** The last position of a key, or -1. */
  function LastFor(rs: seq<SubTaskResult>, key: ResultKey): (i: int)
    ensures -1 <= i < |rs|
    ensures i >= 0 ==> KeyOf(rs[i]) == key
    ensures forall j :: i < j < |rs| ==> KeyOf(rs[j]) != key
  {
    if rs == [] then -1
    else if KeyOf(rs[|rs| - 1]) == key then |rs| - 1
    else LastFor(rs[..|rs| - 1], key)
  }

  /** The entry on record for a key: the last one reported. */
  function Find(rs: seq<SubTaskResult>, key: ResultKey): (r: Option<SubTaskResult>)
    ensures r.Some? <==> LastFor(rs, key) >= 0
    ensures r.Some? ==> r.value == rs[LastFor(rs, key)]
  {
    if rs == [] then None
    else if KeyOf(rs[|rs| - 1]) == key then Some(rs[|rs| - 1])
    else Find(rs[..|rs| - 1], key)
  }

  ghost predicate DistinctResults(rs: seq<SubTaskResult>) {
    forall i, j :: 0 <= i < j < |rs| ==> KeyOf(rs[i]) != KeyOf(rs[j])
  }

  /** The distinct keys of a batch, by first occurrence. */
  function Order(rs: seq<SubTaskResult>): (keys: seq<ResultKey>)
    ensures forall k :: k in keys <==> Find(rs, k).Some?
    ensures forall i, j :: 0 <= i < j < |keys| ==> keys[i] != keys[j]
  {
    if rs == [] then []
    else
      var before := Order(rs[..|rs| - 1]);
      if KeyOf(rs[|rs| - 1]) in before then before else before + [KeyOf(rs[|rs| - 1])]
  }

  /** The current rows after the writes for the given keys have landed. */
  function Rows(current: seq<SubTaskResult>, incoming: seq<SubTaskResult>,
                keys: seq<ResultKey>): (rows: seq<SubTaskResult>)
    requires forall k :: k in keys ==> Find(incoming, k).Some?
    ensures |rows| == |current|
  {
    seq(|current|, i requires 0 <= i < |current| =>
      var key := KeyOf(current[i]);
      if key in keys && LastFor(current, key) == i
      then Overwrite(current[i], Find(incoming, key).value) else current[i])
  }

  /** The results for those of the given keys that are not on record. */
  function Additions(current: seq<SubTaskResult>, incoming: seq<SubTaskResult>,
                     keys: seq<ResultKey>): (added: seq<SubTaskResult>)
    requires forall k :: k in keys ==> Find(incoming, k).Some?
    decreases |keys|
  {
    if keys == [] then []
    else
      var key := keys[|keys| - 1];
      var before := Additions(current, incoming, keys[..|keys| - 1]);
      if LastFor(current, key) >= 0 then before else before + [Find(incoming, key).value]
  }

  /** Index first; equal indices compare by key, and "id:" precedes "idx:". */
  predicate SortsBefore(a: SubTaskResult, b: SubTaskResult) {
    || a.index < b.index
    || (a.index == b.index
        && match (KeyOf(a), KeyOf(b))
           case (ById(x), ById(y)) => StringBefore(x, y)
           case (ById(_), ByIndex(_)) => true
           case (ByIndex(_), _) => false)
  }

  function Insert(r: SubTaskResult, sorted: seq<SubTaskResult>): seq<SubTaskResult> {
    if sorted == [] || SortsBefore(r, sorted[0]) then [r] + sorted
    else [sorted[0]] + Insert(r, sorted[1..])
  }

  /** A stable sort. */
  function Sort(rs: seq<SubTaskResult>): seq<SubTaskResult> {
    if rs == [] then [] else Insert(rs[|rs| - 1], Sort(rs[..|rs| - 1]))
  }

  function MergedResults(current: seq<SubTaskResult>, incoming: seq<SubTaskResult>): seq<SubTaskResult> {
    var keys := Order(incoming);
    Rows(current, incoming, keys) + Sort(Additions(current, incoming, keys))
  }

  ghost predicate Positions(positions: map<ResultKey, int>, rs: seq<SubTaskResult>) {
    && (forall i :: 0 <= i < |rs| ==> KeyOf(rs[i]) in positions)
    && (forall k :: k in positions ==> 0 <= positions[k] < |rs| && KeyOf(rs[positions[k]]) == k)
    && (forall k, j :: k in positions && positions[k] < j < |rs| ==> KeyOf(rs[j]) != k)
  }

  lemma PositionsAreLast(positions: map<ResultKey, int>, rs: seq<SubTaskResult>, key: ResultKey)
    requires Positions(positions, rs)
    ensures LastFor(rs, key) == if key in positions then positions[key] else -1
  {
  }

  lemma PositionAdded(positions: map<ResultKey, int>, rs: seq<SubTaskResult>, r: SubTaskResult)
    requires Positions(positions, rs)
    ensures Positions(positions[KeyOf(r) := |rs|], rs + [r])
  {
    var more := rs + [r];
    assert more[|rs|] == r && forall i :: 0 <= i < |rs| ==> more[i] == rs[i];
  }

  method IndexPositions(rs: seq<SubTaskResult>) returns (positions: map<ResultKey, int>)
    ensures Positions(positions, rs)
  {
    positions := map[];
    for i := 0 to |rs|
      invariant Positions(positions, rs[..i])
    {
      PositionAdded(positions, rs[..i], rs[i]);
      assert rs[..i] + [rs[i]] == rs[..i + 1];
      positions := positions[KeyOf(rs[i]) := i];
    }
    assert rs[..|rs|] == rs;
  }

  /** The batch table holds the last report for each key of the batch. */
  ghost predicate LastReports(collapsed: map<ResultKey, SubTaskResult>, rs: seq<SubTaskResult>) {
    forall k :: Find(rs, k) == if k in collapsed then Some(collapsed[k]) else None
  }

  lemma FindAfter(rs: seq<SubTaskResult>, r: SubTaskResult, key: ResultKey)
    ensures Find(rs + [r], key) == if KeyOf(r) == key then Some(r) else Find(rs, key)
  {
    assert (rs + [r])[..|rs|] == rs;
  }

  lemma LastReportsStep(collapsed: map<ResultKey, SubTaskResult>, rs: seq<SubTaskResult>, r: SubTaskResult)
    requires LastReports(collapsed, rs)
    ensures LastReports(collapsed[KeyOf(r) := r], rs + [r])
  {
    forall k ensures Find(rs + [r], k) == if KeyOf(r) == k then Some(r) else Find(rs, k) {
      FindAfter(rs, r, k);
    }
  }

  lemma OrderStep(rs: seq<SubTaskResult>, r: SubTaskResult)
    ensures Order(rs + [r]) == if KeyOf(r) in Order(rs) then Order(rs) else Order(rs) + [KeyOf(r)]
  {
    assert (rs + [r])[..|rs|] == rs;
  }

  /** What the batch loop holds after a list of results. */
  ghost predicate BatchTables(collapsed: map<ResultKey, SubTaskResult>, order: seq<ResultKey>, rs: seq<SubTaskResult>) {
    order == Order(rs) && LastReports(collapsed, rs)
  }

  lemma BatchStep(collapsed: map<ResultKey, SubTaskResult>, order: seq<ResultKey>, rs: seq<SubTaskResult>,
                  r: SubTaskResult)
    requires BatchTables(collapsed, order, rs)
    ensures KeyOf(r) in collapsed ==> BatchTables(collapsed[KeyOf(r) := r], order, rs + [r])
    ensures KeyOf(r) !in collapsed ==> BatchTables(collapsed[KeyOf(r) := r], order + [KeyOf(r)], rs + [r])
  {
    LastReportsStep(collapsed, rs, r);
    OrderStep(rs, r);
    assert Find(rs, KeyOf(r)).Some? <==> KeyOf(r) in collapsed;
  }

  method CollapseBatch(rs: seq<SubTaskResult>) returns (collapsed: map<ResultKey, SubTaskResult>, order: seq<ResultKey>)
    ensures BatchTables(collapsed, order, rs)
  {
    collapsed, order := map[], [];
    for n := 0 to |rs|
      invariant BatchTables(collapsed, order, rs[..n])
    {
      var key := KeyOf(rs[n]);
      assert rs[..n + 1] == rs[..n] + [rs[n]];
      BatchStep(collapsed, order, rs[..n], rs[n]);
      if key !in collapsed {
        order := order + [key];
      }
      collapsed := collapsed[key := rs[n]];
    }
    assert rs[..|rs|] == rs;
  }

  lemma RowsStep(current: seq<SubTaskResult>, incoming: seq<SubTaskResult>, keys: seq<ResultKey>, key: ResultKey)
    requires forall k :: k in keys ==> Find(incoming, k).Some?
    requires Find(incoming, key).Some? && key !in keys
    ensures var i := LastFor(current, key);
      var rows := Rows(current, incoming, keys);
      Rows(current, incoming, keys + [key])
        == if i >= 0 then rows[i := Overwrite(rows[i], Find(incoming, key).value)] else rows
  {
  }

  /** One turn of the placing loop: the rows and the additions after one more key. */
  lemma PlaceStep(current: seq<SubTaskResult>, incoming: seq<SubTaskResult>, keys: seq<ResultKey>, n: nat)
    requires forall k :: k in keys ==> Find(incoming, k).Some?
    requires forall i, j :: 0 <= i < j < |keys| ==> keys[i] != keys[j]
    requires n < |keys|
    ensures var i := LastFor(current, keys[n]);
      var result := Find(incoming, keys[n]).value;
      var rows := Rows(current, incoming, keys[..n]);
      && Rows(current, incoming, keys[..n + 1]) == (if i >= 0 then rows[i := Overwrite(rows[i], result)] else rows)
      && Additions(current, incoming, keys[..n + 1])
         == Additions(current, incoming, keys[..n]) + (if i >= 0 then [] else [result])
  {
    assert keys[..n + 1] == keys[..n] + [keys[n]] && keys[..n + 1][..n] == keys[..n];
    RowsStep(current, incoming, keys[..n], keys[n]);
  }

  /** The reducer's merge with its position, batch and order tables. */
  method MergeSubTaskResults(current: seq<SubTaskResult>, incoming: seq<SubTaskResult>)
    returns (merged: seq<SubTaskResult>)
    ensures merged == MergedResults(current, incoming)
  {
    var positions := IndexPositions(current);
    var collapsed, order := CollapseBatch(incoming);
    var out := current;
    var additions: seq<SubTaskResult> := [];
    assert Rows(current, incoming, []) == current;
    for n := 0 to |order|
      invariant out == Rows(current, incoming, order[..n])
      invariant additions == Additions(current, incoming, order[..n])
    {
      var key := order[n];
      PlaceStep(current, incoming, order, n);
      PositionsAreLast(positions, current, key);
      if key in positions {
        var i := positions[key];
        out := out[i := Overwrite(out[i], collapsed[key])];
      } else {
        additions := additions + [collapsed[key]];
      }
    }
    assert order[..|order|] == order;
    merged := out + Sort(additions);
  }

  lemma OverwriteKeepsKey(existing: SubTaskResult, update: SubTaskResult)
    requires KeyOf(existing) == KeyOf(update)
    ensures KeyOf(Overwrite(existing, update)) == KeyOf(existing)
  {
  }

  lemma SortsBeforeAsymmetric(a: SubTaskResult, b: SubTaskResult)
    requires SortsBefore(a, b)
    ensures !SortsBefore(b, a)
  {
    if a.index == b.index && a.subTaskID != "" && b.subTaskID != "" {
      StringBeforeAsymmetric(a.subTaskID, b.subTaskID);
    }
  }

  ghost predicate InOrder(rs: seq<SubTaskResult>) {
    forall i {:trigger rs[i]} :: 0 < i < |rs| ==> !SortsBefore(rs[i], rs[i - 1])
  }

  lemma {:induction false} InsertSorts(r: SubTaskResult, sorted: seq<SubTaskResult>)
    requires InOrder(sorted)
    ensures InOrder(Insert(r, sorted))
    ensures multiset(Insert(r, sorted)) == multiset(sorted) + multiset{r}
    ensures |Insert(r, sorted)| > 0
    ensures Insert(r, sorted)[0] == r || (sorted != [] && Insert(r, sorted)[0] == sorted[0])
  {
    if sorted == [] {
    } else if SortsBefore(r, sorted[0]) {
      SortsBeforeAsymmetric(r, sorted[0]);
    } else {
      InsertSorts(r, sorted[1..]);
      assert sorted == [sorted[0]] + sorted[1..];
      var rest := Insert(r, sorted[1..]);
      assert !SortsBefore(rest[0], sorted[0]);
    }
  }

  /** The appended results are in index order and are exactly the new ones. */
  lemma {:induction false} SortSorts(rs: seq<SubTaskResult>)
    ensures InOrder(Sort(rs)) && multiset(Sort(rs)) == multiset(rs)
    decreases |rs|
  {
    if rs == [] {
    } else {
      SortSorts(rs[..|rs| - 1]);
      InsertSorts(rs[|rs| - 1], Sort(rs[..|rs| - 1]));
      assert rs == rs[..|rs| - 1] + [rs[|rs| - 1]];
    }
  }

  lemma LastForSameKeys(a: seq<SubTaskResult>, b: seq<SubTaskResult>, key: ResultKey)
    requires |a| == |b| && forall i :: 0 <= i < |a| ==> KeyOf(a[i]) == KeyOf(b[i])
    ensures LastFor(a, key) == LastFor(b, key)
  {
  }

  // ---------- A whole batch ----------

  lemma FindOne(r: SubTaskResult, key: ResultKey)
    ensures Find([r], key) == if KeyOf(r) == key then Some(r) else None
  {
    assert [r][..0] == [];
  }

  lemma RowsKeepKeys(current: seq<SubTaskResult>, incoming: seq<SubTaskResult>, i: nat)
    requires i < |current|
    ensures KeyOf(Rows(current, incoming, Order(incoming))[i]) == KeyOf(current[i])
  {
    var key := KeyOf(current[i]);
    if key in Order(incoming) {
      OverwriteKeepsKey(current[i], Find(incoming, key).value);
    }
  }

  /** The additions are exactly the last reports for the keys that are not on record. */
  lemma {:induction false} AdditionsExactly(current: seq<SubTaskResult>, incoming: seq<SubTaskResult>,
                                            keys: seq<ResultKey>, r: SubTaskResult)
    requires forall k :: k in keys ==> Find(incoming, k).Some?
    ensures r in Additions(current, incoming, keys) <==>
      KeyOf(r) in keys && LastFor(current, KeyOf(r)) < 0 && Find(incoming, KeyOf(r)) == Some(r)
    decreases |keys|
  {
    if keys == [] {
    } else {
      var before, key := keys[..|keys| - 1], keys[|keys| - 1];
      AdditionsExactly(current, incoming, before, r);
      assert KeyOf(r) in keys <==> KeyOf(r) in before || KeyOf(r) == key;
    }
  }

  lemma {:induction false} FindConcat(a: seq<SubTaskResult>, b: seq<SubTaskResult>, key: ResultKey)
    ensures Find(a + b, key) == if Find(b, key).Some? then Find(b, key) else Find(a, key)
    decreases |b|
  {
    if b == [] {
      assert a + b == a;
    } else {
      assert (a + b)[..|a + b| - 1] == a + b[..|b| - 1];
      FindConcat(a, b[..|b| - 1], key);
    }
  }

  lemma SortKeepsMembers(rs: seq<SubTaskResult>, r: SubTaskResult)
    ensures r in Sort(rs) <==> r in rs
  {
    SortSorts(rs);
    assert r in multiset(Sort(rs)) <==> r in multiset(rs);
  }

  /** What a lookup finds among the appended results. */
  lemma FindAppended(current: seq<SubTaskResult>, incoming: seq<SubTaskResult>, key: ResultKey)
    ensures Find(Sort(Additions(current, incoming, Order(incoming))), key)
         == if LastFor(current, key) < 0 then Find(incoming, key) else None
  {
    var keys := Order(incoming);
    var added := Sort(Additions(current, incoming, keys));
    var found := Find(added, key);
    if found.Some? {
      SortKeepsMembers(Additions(current, incoming, keys), found.value);
      AdditionsExactly(current, incoming, keys, found.value);
    } else if LastFor(current, key) < 0 && Find(incoming, key).Some? {
      var r := Find(incoming, key).value;
      AdditionsExactly(current, incoming, keys, r);
      SortKeepsMembers(Additions(current, incoming, keys), r);
    }
  }

  /**
    After a batch, a lookup finds the last report for its key, merged over what was on
    record; keys without a report keep their entry.
   */
  lemma MergeLookup(current: seq<SubTaskResult>, incoming: seq<SubTaskResult>, key: ResultKey)
    ensures Find(MergedResults(current, incoming), key)
         == match Find(incoming, key)
            case None => Find(current, key)
            case Some(r) => Some(if Find(current, key).Some? then Overwrite(Find(current, key).value, r) else r)
  {
    var keys := Order(incoming);
    var rows := Rows(current, incoming, keys);
    forall i | 0 <= i < |current| ensures KeyOf(rows[i]) == KeyOf(current[i]) {
      RowsKeepKeys(current, incoming, i);
    }
    LastForSameKeys(rows, current, key);
    FindConcat(rows, Sort(Additions(current, incoming, keys)), key);
    FindAppended(current, incoming, key);
  }

  lemma {:induction false} InsertMembers(r: SubTaskResult, sorted: seq<SubTaskResult>, x: SubTaskResult)
    ensures x in Insert(r, sorted) <==> x == r || x in sorted
  {
    if sorted != [] && !SortsBefore(r, sorted[0]) {
      InsertMembers(r, sorted[1..], x);
      assert sorted == [sorted[0]] + sorted[1..];
    }
  }

  ghost predicate HasNoKey(rs: seq<SubTaskResult>, key: ResultKey) {
    forall i :: 0 <= i < |rs| ==> KeyOf(rs[i]) != key
  }

  lemma ConsDistinct(r: SubTaskResult, rs: seq<SubTaskResult>)
    requires DistinctResults(rs) && HasNoKey(rs, KeyOf(r))
    ensures DistinctResults([r] + rs)
  {
    var all := [r] + rs;
    forall i, j | 0 <= i < j < |all| ensures KeyOf(all[i]) != KeyOf(all[j]) {
      assert all[j] == rs[j - 1];
      assert i > 0 ==> all[i] == rs[i - 1];
    }
  }

  lemma UnconsDistinct(rs: seq<SubTaskResult>)
    requires DistinctResults(rs) && rs != []
    ensures DistinctResults(rs[1..]) && HasNoKey(rs[1..], KeyOf(rs[0]))
  {
  }

  lemma {:induction false} InsertStaysDistinct(r: SubTaskResult, sorted: seq<SubTaskResult>)
    requires DistinctResults(sorted) && HasNoKey(sorted, KeyOf(r))
    ensures DistinctResults(Insert(r, sorted))
  {
    ConsDistinct(r, sorted);
    if sorted != [] && !SortsBefore(r, sorted[0]) {
      var rest := sorted[1..];
      UnconsDistinct(sorted);
      InsertStaysDistinct(r, rest);
      forall i | 0 <= i < |Insert(r, rest)| ensures KeyOf(Insert(r, rest)[i]) != KeyOf(sorted[0]) {
        InsertMembers(r, rest, Insert(r, rest)[i]);
      }
      ConsDistinct(sorted[0], Insert(r, rest));
    }
  }

  lemma {:induction false} SortStaysDistinct(rs: seq<SubTaskResult>)
    requires DistinctResults(rs)
    ensures DistinctResults(Sort(rs))
    decreases |rs|
  {
    if rs == [] {
    } else {
      var before, last := rs[..|rs| - 1], rs[|rs| - 1];
      SortStaysDistinct(before);
      forall i | 0 <= i < |Sort(before)| ensures KeyOf(Sort(before)[i]) != KeyOf(last) {
        SortKeepsMembers(before, Sort(before)[i]);
      }
      InsertStaysDistinct(last, Sort(before));
    }
  }

  lemma {:induction false} AdditionsDistinct(current: seq<SubTaskResult>, incoming: seq<SubTaskResult>,
                                             keys: seq<ResultKey>)
    requires forall k :: k in keys ==> Find(incoming, k).Some?
    requires forall i, j :: 0 <= i < j < |keys| ==> keys[i] != keys[j]
    ensures DistinctResults(Additions(current, incoming, keys))
    decreases |keys|
  {
    if keys == [] {
    } else {
      var before, key := keys[..|keys| - 1], keys[|keys| - 1];
      AdditionsDistinct(current, incoming, before);
      var added := Additions(current, incoming, before);
      forall i | 0 <= i < |added| ensures KeyOf(added[i]) != key {
        AdditionsExactly(current, incoming, before, added[i]);
      }
    }
  }

  /** After a batch, every key is still listed at most once. */
  lemma MergeDistinct(current: seq<SubTaskResult>, incoming: seq<SubTaskResult>)
    requires DistinctResults(current)
    ensures DistinctResults(MergedResults(current, incoming))
  {
    var keys := Order(incoming);
    var rows, added := Rows(current, incoming, keys), Additions(current, incoming, keys);
    AdditionsDistinct(current, incoming, keys);
    SortStaysDistinct(added);
    forall i | 0 <= i < |rows| ensures KeyOf(rows[i]) == KeyOf(current[i]) {
      RowsKeepKeys(current, incoming, i);
    }
    forall i, j | 0 <= i < |rows| && 0 <= j < |Sort(added)| ensures KeyOf(rows[i]) != KeyOf(Sort(added)[j]) {
      SortKeepsMembers(added, Sort(added)[j]);
      AdditionsExactly(current, incoming, keys, Sort(added)[j]);
    }
  }
}

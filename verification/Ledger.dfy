/**
  The usage ledgers: rows keyed by model, or by (phase, model), to which the
  reducer adds deltas. The loop keeps an index from key to row; its specification
  is a fold, and what the fold means is stated through per-key totals.
 */
module Ledger {
  import opened State

  /** The last row with the given key, or -1. */
  function LastIndex<K(==)>(rows: seq<Usage<K>>, key: K): (i: int)
    ensures -1 <= i < |rows|
    ensures i >= 0 ==> rows[i].key == key
    ensures forall j :: i < j < |rows| ==> rows[j].key != key
  {
    if rows == [] then -1
    else if rows[|rows| - 1].key == key then |rows| - 1
    else LastIndex(rows[..|rows| - 1], key)
  }

  function AddRow<K(==)>(rows: seq<Usage<K>>, delta: Usage<K>): seq<Usage<K>> {
    var i := LastIndex(rows, delta.key);
    if i >= 0 then
      rows[i := rows[i].(counters := rows[i].counters.Plus(delta.counters.Normalized()))]
    else
      rows + [delta.(counters := delta.counters.Normalized())]
  }

  function Merged<K(==)>(current: seq<Usage<K>>, incoming: seq<Usage<K>>): seq<Usage<K>>
    decreases |incoming|
  {
    if incoming == [] then current
    else AddRow(Merged(current, incoming[..|incoming| - 1]), incoming[|incoming| - 1])
  }

  /** The index the loop maintains: each key that occurs, at its last row. */
  ghost predicate Indexes<K>(index: map<K, int>, rows: seq<Usage<K>>) {
    && (forall j :: 0 <= j < |rows| ==> rows[j].key in index)
    && (forall k :: k in index ==> LastAt(rows, k, index[k]))
  }

  ghost predicate LastAt<K>(rows: seq<Usage<K>>, key: K, i: int) {
    0 <= i < |rows| && rows[i].key == key && forall j :: i < j < |rows| ==> rows[j].key != key
  }

  lemma IndexesAfterUpdate<K>(index: map<K, int>, rows: seq<Usage<K>>, i: nat, row: Usage<K>)
    requires Indexes(index, rows) && i < |rows| && row.key == rows[i].key
    ensures Indexes(index, rows[i := row])
  {
  }

  lemma IndexesAfterAppend<K>(index: map<K, int>, rows: seq<Usage<K>>, row: Usage<K>)
    requires Indexes(index, rows)
    ensures Indexes(index[row.key := |rows|], rows + [row])
  {
  }

  /** The loop body's two branches are AddRow. */
  lemma AddRowByIndex<K>(index: map<K, int>, rows: seq<Usage<K>>, delta: Usage<K>)
    requires Indexes(index, rows)
    ensures delta.key in index ==> LastIndex(rows, delta.key) == index[delta.key]
    ensures delta.key !in index ==> LastIndex(rows, delta.key) == -1
  {
  }

  /** The reducer's loop over the incoming rows, with its key index. */
  method MergeUsages<K(==)>(current: seq<Usage<K>>, incoming: seq<Usage<K>>) returns (out: seq<Usage<K>>)
    ensures out == Merged(current, incoming)
  {
    out := current;
    var index: map<K, int> := map[];
    for i := 0 to |out|
      invariant Indexes(index, out[..i])
    {
      assert out[..i + 1] == out[..i] + [out[i]];
      IndexesAfterAppend(index, out[..i], out[i]);
      index := index[out[i].key := i];
    }
    assert out[..|out|] == out;
    for n := 0 to |incoming|
      invariant out == Merged(current, incoming[..n])
      invariant Indexes(index, out)
    {
      var delta := incoming[n];
      assert incoming[..n + 1][..n] == incoming[..n];
      AddRowByIndex(index, out, delta);
      var calls := if delta.counters.calls <= 0 then 1 else delta.counters.calls;
      if delta.key in index {
        var i := index[delta.key];
        var row := out[i].(counters := out[i].counters.Plus(delta.counters.(calls := calls)));
        IndexesAfterUpdate(index, out, i, row);
        out := out[i := row];
      } else {
        var row := delta.(counters := delta.counters.(calls := calls));
        IndexesAfterAppend(index, out, row);
        out := out + [row];
        index := index[delta.key := |out| - 1];
      }
    }
    assert incoming[..|incoming|] == incoming;
  }

  /** What a ledger says about the wanted keys: the sum over their rows. */
  function Total<K(!new)>(rows: seq<Usage<K>>, wanted: K -> bool): Counters {
    if rows == [] then ZERO_COUNTERS
    else
      var rest := Total(rows[..|rows| - 1], wanted);
      if wanted(rows[|rows| - 1].key) then rest.Plus(rows[|rows| - 1].counters) else rest
  }

  /** The same sum over reported deltas, each counted as at least one call. */
  function DeltaTotal<K(!new)>(deltas: seq<Usage<K>>, wanted: K -> bool): Counters {
    if deltas == [] then ZERO_COUNTERS
    else
      var rest := DeltaTotal(deltas[..|deltas| - 1], wanted);
      if wanted(deltas[|deltas| - 1].key)
      then rest.Plus(deltas[|deltas| - 1].counters.Normalized()) else rest
  }

  ghost predicate DistinctKeys<K>(rows: seq<Usage<K>>) {
    forall i, j :: 0 <= i < j < |rows| ==> rows[i].key != rows[j].key
  }

  lemma {:induction false} TotalReplace<K(!new)>(rows: seq<Usage<K>>, i: nat, c: Counters, wanted: K -> bool)
    requires i < |rows|
    ensures Total(rows[i := rows[i].(counters := rows[i].counters.Plus(c))], wanted)
         == if wanted(rows[i].key) then Total(rows, wanted).Plus(c) else Total(rows, wanted)
  {
    var updated := rows[i := rows[i].(counters := rows[i].counters.Plus(c))];
    var n := |rows| - 1;
    if i < n {
      assert updated[..n] == rows[..n][i := rows[i].(counters := rows[i].counters.Plus(c))];
      TotalReplace(rows[..n], i, c, wanted);
    } else {
      assert updated[..n] == rows[..n];
    }
  }

  lemma PlusAssociates(a: Counters, b: Counters, c: Counters)
    ensures a.Plus(b).Plus(c) == a.Plus(b.Plus(c))
    ensures a.Plus(ZERO_COUNTERS) == a
  {
  }

  lemma AddRowTotal<K(!new)>(rows: seq<Usage<K>>, delta: Usage<K>, wanted: K -> bool)
    ensures Total(AddRow(rows, delta), wanted)
         == if wanted(delta.key) then Total(rows, wanted).Plus(delta.counters.Normalized()) else Total(rows, wanted)
  {
    var i := LastIndex(rows, delta.key);
    if i >= 0 {
      TotalReplace(rows, i, delta.counters.Normalized(), wanted);
    } else {
      assert (rows + [delta.(counters := delta.counters.Normalized())])[..|rows|] == rows;
    }
  }

  /** Merging conserves every counter, whatever group of keys one adds up. */
  lemma {:induction false} MergeConserves<K(!new)>(current: seq<Usage<K>>, incoming: seq<Usage<K>>, wanted: K -> bool)
    ensures Total(Merged(current, incoming), wanted) == Total(current, wanted).Plus(DeltaTotal(incoming, wanted))
    decreases |incoming|
  {
    if incoming == [] {
      PlusAssociates(Total(current, wanted), ZERO_COUNTERS, ZERO_COUNTERS);
    } else {
      var n := |incoming| - 1;
      MergeConserves(current, incoming[..n], wanted);
      AddRowTotal(Merged(current, incoming[..n]), incoming[n], wanted);
      PlusAssociates(Total(current, wanted), DeltaTotal(incoming[..n], wanted), incoming[n].counters.Normalized());
    }
  }

  /** Merging keeps the rows where they are and never lists a key twice. */
  lemma {:induction false} MergeKeepsRows<K>(current: seq<Usage<K>>, incoming: seq<Usage<K>>)
    ensures DistinctKeys(current) ==> DistinctKeys(Merged(current, incoming))
    ensures |Merged(current, incoming)| >= |current|
    ensures forall i :: 0 <= i < |current| ==> Merged(current, incoming)[i].key == current[i].key
    decreases |incoming|
  {
    if incoming == [] {
    } else {
      MergeKeepsRows(current, incoming[..|incoming| - 1]);
    }
  }

  /** Merging in two rounds is merging the concatenation. */
  lemma {:induction false} MergeConcat<K>(current: seq<Usage<K>>, a: seq<Usage<K>>, b: seq<Usage<K>>)
    ensures Merged(current, a + b) == Merged(Merged(current, a), b)
    decreases |b|
  {
    if b == [] {
      assert a + b == a;
    } else {
      var n := |b| - 1;
      assert (a + b)[..|a + b| - 1] == a + b[..n];
      MergeConcat(current, a, b[..n]);
    }
  }

  /** Everything charged to a ledger, over all keys: input plus output tokens. */
  function Volume<K>(rows: seq<Usage<K>>): int {
    if rows == [] then 0
    else Volume(rows[..|rows| - 1]) + rows[|rows| - 1].counters.input + rows[|rows| - 1].counters.output
  }

  lemma {:induction false} VolumeReplace<K>(rows: seq<Usage<K>>, i: nat, c: Counters)
    requires i < |rows|
    ensures Volume(rows[i := rows[i].(counters := rows[i].counters.Plus(c))]) == Volume(rows) + c.input + c.output
  {
    var updated := rows[i := rows[i].(counters := rows[i].counters.Plus(c))];
    var n := |rows| - 1;
    if i < n {
      assert updated[..n] == rows[..n][i := rows[i].(counters := rows[i].counters.Plus(c))];
      VolumeReplace(rows[..n], i, c);
    } else {
      assert updated[..n] == rows[..n];
    }
  }

  lemma {:induction false} MergeConservesVolume<K>(current: seq<Usage<K>>, incoming: seq<Usage<K>>)
    ensures Volume(Merged(current, incoming)) == Volume(current) + Volume(incoming)
    decreases |incoming|
  {
    if incoming == [] {
    } else {
      var n := |incoming| - 1;
      MergeConservesVolume(current, incoming[..n]);
      var rows, delta := Merged(current, incoming[..n]), incoming[n];
      var i := LastIndex(rows, delta.key);
      if i >= 0 {
        VolumeReplace(rows, i, delta.counters.Normalized());
      } else {
        assert (rows + [delta.(counters := delta.counters.Normalized())])[..|rows|] == rows;
      }
    }
  }
}

/**
  Syncing the issue checklist with a finished plan: which items the finished
  sub-tasks tick, the patched body, and the drift check made afterwards.
 */
module ChecklistSync {
  import opened State
  import opened Strings
  import opened Lines
  import opened Checklist

  /** Line i holds an item that is still unchecked and that the rule picks. */
  predicate Picked(md: Markdown, lines: seq<string>, picks: Item -> bool, i: nat) {
    i < |lines| && Counts(md, lines, i) && !IsChecked(lines[i]) && picks(ItemAt(md, lines, i))
  }

  function Chosen(md: Markdown, lines: seq<string>, picks: Item -> bool): nat -> bool {
    (i: nat) => Picked(md, lines, picks, i)
  }

  /** The body with every unchecked item that the rule picks ticked. */
  function Synced(md: Markdown, body: string, picks: Item -> bool): string {
    TickBody(body, Chosen(md, Split(body), picks))
  }

  function SyncedTexts(md: Markdown, body: string, picks: Item -> bool): seq<string> {
    UpdatedTexts(Split(body), Chosen(md, Split(body), picks), |Split(body)|)
  }

  /** Every parsed item is a counting line, and every counting line is parsed. */
  lemma {:induction false} ItemsAreLines(md: Markdown, lines: seq<string>, n: nat)
    requires n <= |lines|
    ensures forall k :: 0 <= k < |Items(md, lines, n)| ==>
      var item := Items(md, lines, n)[k];
      item.line < n && Counts(md, lines, item.line) && item == ItemAt(md, lines, item.line)
    ensures forall i :: 0 <= i < n && Counts(md, lines, i) ==> ItemAt(md, lines, i) in Items(md, lines, n)
  {
    if n == 0 {
    } else {
      ItemsAreLines(md, lines, n - 1);
    }
  }

  /** What a re-parse sees after a sync: each item as it was, and checked iff it was checked or is picked. */
  lemma SyncMarks(md: Markdown, body: string, picks: Item -> bool, k: nat)
    requires k < |Parsed(md, body)|
    ensures |Parsed(md, Synced(md, body, picks))| == |Parsed(md, body)|
    ensures var was, now := Parsed(md, body)[k], Parsed(md, Synced(md, body, picks))[k];
      now == was.(checked := was.checked || picks(was))
  {
    var lines := Split(body);
    var ticks := Chosen(md, lines, picks);
    TickReparses(md, body, ticks);
    ItemsAreLines(md, lines, |lines|);
    assert Parsed(md, Synced(md, body, picks))[k] == Marked(Parsed(md, body)[k], ticks);
  }

  /** A sync reports exactly the items it ticks, and reports none only when the body is unchanged. */
  lemma SyncCounts(md: Markdown, body: string, picks: Item -> bool)
    ensures CheckedCount(Parsed(md, Synced(md, body, picks)))
         == CheckedCount(Parsed(md, body)) + |SyncedTexts(md, body, picks)|
    ensures Synced(md, body, picks) == body <==> SyncedTexts(md, body, picks) == []
  {
    var lines := Split(body);
    var ticks := Chosen(md, lines, picks);
    TickReparses(md, body, ticks);
    TicksAreCounted(md, lines, ticks, |lines|);
    TickChangesExactly(md, body, ticks);
  }

  /** After a sync no unchecked line is picked any more. */
  lemma NothingLeft(md: Markdown, lines: seq<string>, picks: Item -> bool, i: nat)
    requires i < |lines|
    ensures !Picked(md, Ticked(lines, Chosen(md, lines, picks)), picks, i)
  {
    var ticks := Chosen(md, lines, picks);
    var after := Ticked(lines, ticks);
    TickedAt(md, lines, ticks, i);
    TickedSections(md, lines, ticks, i);
    if Counts(md, after, i) && !IsChecked(after[i]) {
      assert ItemAt(md, after, i) == ItemAt(md, lines, i);
    }
  }

  /** Syncing a second time under the same rule changes nothing. */
  lemma SyncTwice(md: Markdown, body: string, picks: Item -> bool)
    ensures Synced(md, Synced(md, body, picks), picks) == Synced(md, body, picks)
    ensures SyncedTexts(md, Synced(md, body, picks), picks) == []
  {
    var lines := Split(body);
    var after := Synced(md, body, picks);
    TickReparses(md, body, Chosen(md, lines, picks));
    forall i | 0 <= i < |lines| ensures !Picked(md, Split(after), picks, i) {
      NothingLeft(md, lines, picks, i);
    }
    NothingPicked(md, after, picks);
  }

  lemma NothingPicked(md: Markdown, body: string, picks: Item -> bool)
    requires forall i :: 0 <= i < |Split(body)| ==> !Picked(md, Split(body), picks, i)
    ensures Synced(md, body, picks) == body && SyncedTexts(md, body, picks) == []
  {
    var lines := Split(body);
    NoTicksNoTexts(lines, Chosen(md, lines, picks), |lines|);
    TickChangesExactly(md, body, Chosen(md, lines, picks));
  }

  // ---------- The two rules ----------

  function Finished(subtasks: seq<SubTask>): seq<SubTask> {
    if subtasks == [] then []
    else
      var last := subtasks[|subtasks| - 1];
      Finished(subtasks[..|subtasks| - 1]) + if last.status.SubDone? then [last] else []
  }

  function Descriptions(subtasks: seq<SubTask>): seq<string> {
    seq(|subtasks|, i requires 0 <= i < |subtasks| => subtasks[i].description)
  }

  /** The non-blank ids of a declaration, trimmed. */
  function DeclaredIn(ids: seq<string>): set<string> {
    if ids == [] then {}
    else
      var id := TrimSpace(ids[|ids| - 1]);
      DeclaredIn(ids[..|ids| - 1]) + if id == "" then {} else {id}
  }

  function Declared(subtasks: seq<SubTask>): set<string> {
    if subtasks == [] then {}
    else Declared(subtasks[..|subtasks| - 1]) + DeclaredIn(subtasks[|subtasks| - 1].checklistItemIDs)
  }

  /**
    The fuzzy comparison of a checklist item with a description: blank text
    matches nothing, and `similar` decides the rest on trimmed text.
   */
  predicate Matches(similar: (string, string) -> bool, text: string, description: string) {
    TrimSpace(text) != "" && TrimSpace(description) != "" && similar(TrimSpace(text), TrimSpace(description))
  }

  predicate MatchesAny(similar: (string, string) -> bool, text: string, descriptions: seq<string>) {
    exists k :: 0 <= k < |descriptions| && Matches(similar, text, descriptions[k])
  }

  function ByID(ids: set<string>): Item -> bool {
    (item: Item) => item.id in ids
  }

  function ByText(similar: (string, string) -> bool, descriptions: seq<string>): Item -> bool {
    (item: Item) => MatchesAny(similar, item.text, descriptions)
  }

  /** Declarations of finished sub-tasks decide when there are any; else their descriptions do. */
  function SyncRule(similar: (string, string) -> bool, subtasks: seq<SubTask>): Item -> bool {
    var done := Finished(subtasks);
    if Declared(done) != {} then ByID(Declared(done)) else ByText(similar, Descriptions(done))
  }

  /** Blanks around an item's text do not matter to the match. */
  lemma MatchTrimmed(similar: (string, string) -> bool, text: string, descriptions: seq<string>)
    ensures MatchesAny(similar, TrimSpace(text), descriptions) == MatchesAny(similar, text, descriptions)
  {
    TrimSpaceTwice(text);
    assert forall k :: 0 <= k < |descriptions| ==>
      Matches(similar, TrimSpace(text), descriptions[k]) == Matches(similar, text, descriptions[k]);
  }

  method MatchesSome(similar: (string, string) -> bool, text: string, descriptions: seq<string>) returns (hit: bool)
    ensures hit == MatchesAny(similar, text, descriptions)
  {
    for k := 0 to |descriptions|
      invariant forall j :: 0 <= j < k ==> !Matches(similar, text, descriptions[j])
    {
      if Matches(similar, text, descriptions[k]) {
        return true;
      }
    }
    return false;
  }

  method UpdateChecklistInBody(md: Markdown, similar: (string, string) -> bool, body: string,
                               descriptions: seq<string>)
    returns (updated: string)
    ensures updated == Synced(md, body, ByText(similar, descriptions))
  {
    ghost var original := Split(body);
    ghost var ticks := Chosen(md, original, ByText(similar, descriptions));
    ghost var ticked := Ticked(original, ticks);
    var lines := Split(body);
    var section := "";
    for i := 0 to |lines|
      invariant |lines| == |original|
      invariant section == SectionAt(md, original, i)
      invariant forall j :: 0 <= j < i ==> lines[j] == ticked[j]
      invariant forall j :: i <= j < |lines| ==> lines[j] == original[j]
    {
      assert ticked[i] == if ticks(i) && IsItem(original[i]) then Tick(original[i]) else original[i];
      assert ticks(i) == Picked(md, original, ByText(similar, descriptions), i);
      var heading := Heading(md, lines[i]);
      if heading != "" {
        section := heading;
      } else if !md.isPlan(section) && IsItem(lines[i]) && lines[i][3] == ' ' {
        var hit := MatchesSome(similar, TrimSpace(lines[i][6..]), descriptions);
        if hit {
          lines := lines[i := "- [x] " + lines[i][6..]];
        }
      }
    }
    assert lines == ticked;
    updated := Join(lines);
  }

  /** The lines to tick, with the item texts to report. */
  method TickTargets(md: Markdown, body: string, declared: set<string>) returns (targets: map<nat, string>)
    ensures forall i :: i in targets ==>
      Picked(md, Split(body), ByID(declared), i) && targets[i] == TrimSpace(Split(body)[i][6..])
    ensures forall i :: 0 <= i < |Split(body)| && Picked(md, Split(body), ByID(declared), i) ==> i in targets
  {
    ghost var lines := Split(body);
    var items := ExtractChecklist(md, body);
    ItemsAreLines(md, lines, |lines|);
    targets := map[];
    for k := 0 to |items|
      invariant forall i :: i in targets ==>
        Picked(md, lines, ByID(declared), i) && targets[i] == TrimSpace(lines[i][6..])
      invariant forall j :: 0 <= j < k && !items[j].checked && items[j].id in declared ==> items[j].line in targets
    {
      if !items[k].checked && items[k].id in declared {
        targets := targets[items[k].line := items[k].text];
      }
    }
    forall i | 0 <= i < |lines| && Picked(md, lines, ByID(declared), i) ensures i in targets {
      assert ItemAt(md, lines, i) in items;
    }
  }

  method ApplyDeclaredTicks(md: Markdown, body: string, declared: set<string>)
    returns (updated: string, texts: seq<string>)
    ensures updated == Synced(md, body, ByID(declared))
    ensures texts == SyncedTexts(md, body, ByID(declared))
  {
    if declared == {} {
      NothingPicked(md, body, ByID(declared));
      return body, [];
    }
    var targets := TickTargets(md, body, declared);
    if targets == map[] {
      NothingPicked(md, body, ByID(declared));
      return body, [];
    }
    var lines;
    lines, texts := TickLines(md, Split(body), ByID(declared), targets);
    updated := Join(lines);
  }

  method TickLines(md: Markdown, original: seq<string>, ghost picks: Item -> bool, targets: map<nat, string>)
    returns (lines: seq<string>, texts: seq<string>)
    requires forall i :: i in targets ==>
      Picked(md, original, picks, i) && targets[i] == TrimSpace(original[i][6..])
    requires forall i :: 0 <= i < |original| && Picked(md, original, picks, i) ==> i in targets
    ensures lines == Ticked(original, Chosen(md, original, picks))
    ensures texts == UpdatedTexts(original, Chosen(md, original, picks), |original|)
  {
    ghost var ticks := Chosen(md, original, picks);
    lines, texts := original, [];
    for i := 0 to |lines|
      invariant |lines| == |original|
      invariant forall j :: 0 <= j < i ==> lines[j] == Ticked(original, ticks)[j]
      invariant forall j :: i <= j < |lines| ==> lines[j] == original[j]
      invariant texts == UpdatedTexts(original, ticks, i)
    {
      assert ticks(i) == Picked(md, original, picks, i) == (i in targets);
      if i in targets && IsItem(lines[i]) && lines[i][3] == ' ' {
        texts := texts + [targets[i]];
        lines := lines[i := "- [x] " + lines[i][6..]];
      }
    }
  }

  /** The texts the fuzzy mode reports, found by reading the body it started from. */
  method MatchedTexts(md: Markdown, similar: (string, string) -> bool, body: string, descriptions: seq<string>)
    returns (texts: seq<string>)
    ensures texts == SyncedTexts(md, body, ByText(similar, descriptions))
  {
    var lines := Split(body);
    ghost var ticks := Chosen(md, lines, ByText(similar, descriptions));
    var section := "";
    texts := [];
    for i := 0 to |lines|
      invariant section == SectionAt(md, lines, i)
      invariant texts == UpdatedTexts(lines, ticks, i)
    {
      assert ticks(i) == Picked(md, lines, ByText(similar, descriptions), i);
      var heading := Heading(md, lines[i]);
      if heading != "" {
        section := heading;
      } else if !md.isPlan(section) && IsItem(lines[i]) && lines[i][3] == ' ' {
        var hit := MatchesSome(similar, lines[i][6..], descriptions);
        MatchTrimmed(similar, lines[i][6..], descriptions);
        if hit {
          texts := texts + [TrimSpace(lines[i][6..])];
        }
      }
    }
  }

  datatype Preview = Preview(
    completed: seq<string>,
    updated: seq<string>,
    before: string,
    after: string,
    changed: bool)

  method AddDeclared(declared: set<string>, ids: seq<string>) returns (all: set<string>, some: bool)
    ensures all == declared + DeclaredIn(ids)
    ensures some <==> DeclaredIn(ids) != {}
  {
    all, some := declared, false;
    for j := 0 to |ids|
      invariant all == declared + DeclaredIn(ids[..j])
      invariant some <==> DeclaredIn(ids[..j]) != {}
    {
      assert ids[..j + 1][..j] == ids[..j];
      var id := TrimSpace(ids[j]);
      if id != "" {
        all := all + {id};
        some := true;
      }
    }
    assert ids[..|ids|] == ids;
  }

  lemma FinishedMore(subtasks: seq<SubTask>, last: SubTask)
    ensures !last.status.SubDone? ==> Finished(subtasks + [last]) == Finished(subtasks)
    ensures last.status.SubDone? ==> Finished(subtasks + [last]) == Finished(subtasks) + [last]
    ensures Declared(subtasks + [last]) == Declared(subtasks) + DeclaredIn(last.checklistItemIDs)
  {
    assert (subtasks + [last])[..|subtasks|] == subtasks;
    assert Finished(subtasks) + [] == Finished(subtasks);
  }

  method CollectDone(subtasks: seq<SubTask>)
    returns (completed: seq<string>, declared: set<string>, declarations: bool)
    ensures completed == Descriptions(Finished(subtasks))
    ensures declared == Declared(Finished(subtasks))
    ensures declarations <==> declared != {}
  {
    completed, declared, declarations := [], {}, false;
    for i := 0 to |subtasks|
      invariant completed == Descriptions(Finished(subtasks[..i]))
      invariant declared == Declared(Finished(subtasks[..i]))
      invariant declarations <==> declared != {}
    {
      assert subtasks[..i + 1] == subtasks[..i] + [subtasks[i]];
      FinishedMore(subtasks[..i], subtasks[i]);
      if subtasks[i].status.SubDone? {
        FinishedMore(Finished(subtasks[..i]), subtasks[i]);
        completed := completed + [subtasks[i].description];
        var some;
        declared, some := AddDeclared(declared, subtasks[i].checklistItemIDs);
        declarations := declarations || some;
      }
    }
    assert subtasks[..|subtasks|] == subtasks;
  }

  method BuildChecklistSyncPreview(md: Markdown, similar: (string, string) -> bool, body: string,
                                   subtasks: seq<SubTask>)
    returns (preview: Preview)
    ensures preview.completed == Descriptions(Finished(subtasks))
    ensures preview.before == body
    ensures preview.after == Synced(md, body, SyncRule(similar, subtasks))
    ensures preview.updated == SyncedTexts(md, body, SyncRule(similar, subtasks))
    ensures preview.changed <==> preview.updated != []
  {
    var completed, declared, declarations := CollectDone(subtasks);
    SyncCounts(md, body, SyncRule(similar, subtasks));
    if completed == [] {
      assert Finished(subtasks) == [];
      NothingPicked(md, body, SyncRule(similar, subtasks));
      return Preview(completed, [], body, body, false);
    }
    var after: string;
    var updated: seq<string> := [];
    if declarations {
      after, updated := ApplyDeclaredTicks(md, body, declared);
    } else {
      after := UpdateChecklistInBody(md, similar, body, completed);
      if after != body {
        updated := MatchedTexts(md, similar, body, completed);
      }
    }
    preview := Preview(completed, updated, body, after, after != body);
  }

  // ---------- Drift ----------

  /** The declared items that a re-parse still finds unchecked, in body order. */
  function Drifted(declared: set<string>, items: seq<Item>): seq<string> {
    if items == [] then []
    else
      var last := items[|items| - 1];
      Drifted(declared, items[..|items| - 1]) + if last.id in declared && !last.checked then [last.id] else []
  }

  method DeclarationDrift(plan: seq<SubTask>, items: seq<Item>) returns (drifted: seq<string>)
    ensures multiset(drifted) == multiset(Drifted(Declared(Finished(plan)), items)) && Ordered(drifted)
  {
    var _, declared, declarations := CollectDone(plan);
    drifted := [];
    for i := 0 to |items|
      invariant drifted == Drifted(declared, items[..i])
    {
      assert items[..i + 1][..i] == items[..i];
      if declarations && items[i].id in declared && !items[i].checked {
        drifted := drifted + [items[i].id];
      }
    }
    assert items[..|items|] == items;
    SortStringsSorts(drifted);
    drifted := SortStrings(drifted);
  }

  lemma {:induction false} DriftExactly(declared: set<string>, items: seq<Item>)
    ensures Drifted(declared, items) == [] <==>
      forall k :: 0 <= k < |items| && items[k].id in declared ==> items[k].checked
  {
    if items == [] {
    } else {
      DriftExactly(declared, items[..|items| - 1]);
    }
  }

  /** Once a preview is applied, the re-parsed body shows no drift for the plan that made it. */
  lemma NoDriftAfterSync(md: Markdown, similar: (string, string) -> bool, body: string, plan: seq<SubTask>)
    ensures Drifted(Declared(Finished(plan)), Parsed(md, Synced(md, body, SyncRule(similar, plan)))) == []
  {
    var rule := SyncRule(similar, plan);
    var items := Parsed(md, Synced(md, body, rule));
    var declared := Declared(Finished(plan));
    TickReparses(md, body, Chosen(md, Split(body), rule));
    forall k | 0 <= k < |items| && items[k].id in declared ensures items[k].checked {
      SyncMarks(md, body, rule, k);
    }
    DriftExactly(declared, items);
  }
}

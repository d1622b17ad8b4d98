/** An issue from its first parse to the final sync, with the plan written into it. */
module IssueLifecycle {
  import opened State
  import opened Strings
  import opened Lines
  import opened Checklist
  import opened ChecklistSync
  import opened Advertising
  import opened PlanningSession
  import opened ChecklistCoverage
  import opened PlanSections
  import opened PlanChecklist
  import opened StripShifts

  /** The goal that is built from an issue's body. */
  function GoalOf(md: Markdown, parts: GoalText, body: string): string {
    Goal(parts, Parsed(md, body))
  }

  /**
    From the goal through the gate: the plan is written into the body, and all its
    sub-tasks end Done. The synced body holds no unchecked item, if the goal advertised
    what the stripped body leaves unchecked.
   */
  lemma PlannedIssueCompletes(md: Markdown, similar: (string, string) -> bool, body: string, goal: string,
                              planned: seq<SubTask>, finished: seq<SubTask>)
    requires KnowsPlanHeader(md) && Plain(planned)
    requires Missing(goal, planned) == {}
    requires SameDeclarations(planned, finished) && AllDone(finished)
    requires AllAdvertised(md, goal, Stripped(body))
    ensures AllChecked(Parsed(md, Synced(md, Written(body, planned), SyncRule(similar, finished))))
  {
    PlanAddsNoItems(md, body, planned);
    CoverageCompletes(md, similar, goal, planned, finished, Written(body, planned));
  }

  /** Whatever plain plan passes the gate: once it is written and done, the issue is complete. */
  ghost predicate IssueCompletes(md: Markdown, similar: (string, string) -> bool, body: string, goal: string) {
    forall planned, finished ::
      Plain(planned) && Missing(goal, planned) == {} && SameDeclarations(planned, finished) && AllDone(finished) ==>
      AllChecked(Parsed(md, Synced(md, Written(body, planned), SyncRule(similar, finished))))
  }

  lemma DoneTaskIsPlain(ids: seq<string>)
    requires forall k :: 0 <= k < |ids| ==> OneLine(ids[k])
    ensures Plain([DoneTask(ids)])
  {
    JoinedIsOneLine(ids);
    var line := TaskLine(1, DoneTask(ids));
    assert OneLine(line[..|line| - 1]);
  }

  /**
    Every plan that passes the gate completes the issue exactly when the goal advertised
    all that the strip leaves unchecked: the strip comes after the goal was made, and may
    have renumbered the items.
   */
  lemma PlannedIssueCompletesExactly(md: Markdown, similar: (string, string) -> bool, body: string, goal: string)
    requires KnowsPlanHeader(md)
    ensures IssueCompletes(md, similar, body, goal) <==> AllAdvertised(md, goal, Stripped(body))
  {
    if AllAdvertised(md, goal, Stripped(body)) {
      forall planned, finished |
        Plain(planned) && Missing(goal, planned) == {} && SameDeclarations(planned, finished) && AllDone(finished)
        ensures AllChecked(Parsed(md, Synced(md, Written(body, planned), SyncRule(similar, finished))))
      {
        PlannedIssueCompletes(md, similar, body, goal, planned, finished);
      }
    } else {
      var ids := JustEnough(goal);
      var plan := [DoneTask(ids)];
      DoneTaskIsPlain(ids);
      PlanAddsNoItems(md, body, plan);
      UnadvertisedStays(md, similar, goal, Written(body, plan), ids);
      assert SameDeclarations(plan, plan);
    }
  }

  // ---------- When the goal does advertise all ----------

  /** An issue without a plan section. */
  lemma FreshIssueCompletes(md: Markdown, similar: (string, string) -> bool, parts: GoalText, body: string)
    requires KnowsPlanHeader(md) && Index(body, HEADER) < 0
    ensures IssueCompletes(md, similar, body, GoalOf(md, parts, body))
  {
    StripKeepsItems(md, body);
    GoalCovers(md, body, parts);
    PlannedIssueCompletesExactly(md, similar, body, GoalOf(md, parts, body));
  }

  /** An issue planned before, with the plain plan still at its end. */
  lemma ReplannedIssueCompletes(md: Markdown, similar: (string, string) -> bool, parts: GoalText, origin: string,
                                earlier: seq<SubTask>)
    requires KnowsPlanHeader(md) && Plain(earlier)
    ensures var body := Written(origin, earlier);
      IssueCompletes(md, similar, body, GoalOf(md, parts, body))
  {
    var body := Written(origin, earlier);
    PlanAddsNoItems(md, origin, earlier);
    WrittenStrips(origin, earlier);
    GoalCovers(md, body, parts);
    PlannedIssueCompletesExactly(md, similar, body, GoalOf(md, parts, body));
  }

  lemma SameBoxesUnchecked(a: seq<Item>, b: seq<Item>, id: string)
    requires Boxes(a) == Boxes(b) && Unchecked(a, id)
    ensures Unchecked(b, id)
  {
    var k :| 0 <= k < |a| && !a[k].checked && a[k].id == id;
    assert |Boxes(a)| == |Boxes(b)| && Boxes(a)[k] == Boxes(b)[k];
  }

  /** An issue with plan sections anywhere, but no item below the first, nor brought out by the strip. */
  lemma ItemsAboveComplete(md: Markdown, similar: (string, string) -> bool, parts: GoalText, body: string)
    requires KnowsPlanHeader(md) && Index(body, HEADER) >= 0 && Regular(md, body) && !ItemBelow(md, body)
    ensures IssueCompletes(md, similar, body, GoalOf(md, parts, body))
  {
    StripKeepsIDsExactly(md, body);
    GoalCovers(md, body, parts);
    forall id | Unchecked(Parsed(md, Stripped(body)), id) ensures id in Markers(GoalOf(md, parts, body)) {
      SameBoxesUnchecked(Parsed(md, Stripped(body)), Parsed(md, body), id);
    }
    PlannedIssueCompletesExactly(md, similar, body, GoalOf(md, parts, body));
  }

  // ---------- Which items a sync ticks ----------

  /** The same items as far as ids matter: marks agree, and open items keep their ids. */
  ghost predicate SameOpenItems(was: seq<Item>, now: seq<Item>) {
    && |was| == |now|
    && forall k :: 0 <= k < |was| ==> was[k].checked == now[k].checked && (!was[k].checked ==> was[k].id == now[k].id)
  }

  /** A sync under the declared ids ticks exactly the items that had these ids when the goal was made. */
  ghost predicate TicksRight(md: Markdown, body: string, written: string, declared: set<string>) {
    var was, now := Parsed(md, body), Parsed(md, Synced(md, written, ByID(declared)));
    && |was| == |now|
    && forall k :: 0 <= k < |was| ==> (now[k].checked <==> was[k].checked || was[k].id in declared)
  }

  lemma SyncedMarks(md: Markdown, body: string, declared: set<string>)
    ensures var items, now := Parsed(md, body), Parsed(md, Synced(md, body, ByID(declared)));
      |now| == |items|
      && forall k :: 0 <= k < |items| ==> (now[k].checked <==> items[k].checked || items[k].id in declared)
  {
    TickReparses(md, body, Chosen(md, Split(body), ByID(declared)));
    forall k | 0 <= k < |Parsed(md, body)|
      ensures Parsed(md, Synced(md, body, ByID(declared)))[k].checked
        <==> Parsed(md, body)[k].checked || Parsed(md, body)[k].id in declared
    {
      SyncMarks(md, body, ByID(declared), k);
    }
  }

  lemma ItemIDIsNoDash(md: Markdown, body: string, k: nat)
    requires k < |Parsed(md, body)|
    ensures Parsed(md, body)[k].id != "-"
  {
    ParsedID(md, body, k);
    assert Parsed(md, body)[k].id[0] == 'i';
  }

  /**
    Once the plan is written, a sync ticks exactly the items declared under their goal ids,
    whatever is declared, iff the strip has kept the open items' ids and all marks.
   */
  lemma SyncTicksRightExactly(md: Markdown, body: string, planned: seq<SubTask>)
    requires KnowsPlanHeader(md) && Plain(planned)
    ensures (forall declared :: declared != {} ==> TicksRight(md, body, Written(body, planned), declared)) <==>
      SameOpenItems(Parsed(md, body), Parsed(md, Stripped(body)))
  {
    var was, left, written := Parsed(md, body), Parsed(md, Stripped(body)), Written(body, planned);
    PlanAddsNoItems(md, body, planned);
    if SameOpenItems(was, left) {
      forall declared | declared != {} ensures TicksRight(md, body, written, declared) {
        SyncedMarks(md, written, declared);
      }
    }
    if forall declared :: declared != {} ==> TicksRight(md, body, written, declared) {
      RightTicksKeep(md, body, written);
    }
  }

  lemma RightTicksKeep(md: Markdown, body: string, written: string)
    requires forall declared :: declared != {} ==> TicksRight(md, body, written, declared)
    ensures SameOpenItems(Parsed(md, body), Parsed(md, written))
  {
    var was, left := Parsed(md, body), Parsed(md, written);
    assert TicksRight(md, body, written, {"-"});
    SyncedMarks(md, written, {"-"});
    forall k | 0 <= k < |was|
      ensures was[k].checked == left[k].checked && (!was[k].checked ==> was[k].id == left[k].id)
    {
      ItemIDIsNoDash(md, body, k);
      ItemIDIsNoDash(md, written, k);
      assert TicksRight(md, body, written, {was[k].id});
      SyncedMarks(md, written, {was[k].id});
    }
  }

  lemma SameBoxesOpen(was: seq<Item>, left: seq<Item>)
    requires Boxes(was) == Boxes(left)
    ensures SameOpenItems(was, left)
  {
    assert |was| == |Boxes(was)| == |Boxes(left)| == |left|;
    forall k | 0 <= k < |was| ensures was[k].checked == left[k].checked && was[k].id == left[k].id {
      assert Boxes(was)[k] == Boxes(left)[k];
    }
  }

  /** So it is when no cut of the strip brings an item out and none stands below the first plan section. */
  lemma ItemsAboveTickRight(md: Markdown, body: string, planned: seq<SubTask>, declared: set<string>)
    requires KnowsPlanHeader(md) && Plain(planned) && declared != {}
    requires Index(body, HEADER) >= 0 && Regular(md, body) && !ItemBelow(md, body)
    ensures TicksRight(md, body, Written(body, planned), declared)
  {
    var was, left := Parsed(md, body), Parsed(md, Stripped(body));
    StripKeepsIDsExactly(md, body);
    SameBoxesOpen(was, left);
    SyncTicksRightExactly(md, body, planned);
  }

  // ---------- When it goes wrong ----------

  lemma HeadingNext(other: string)
    requires HEADING <= other
    ensures Index("\n" + other, NEXT_HEADING) == 0 && ("\n" + other)[1..] == other
  {
    var rest := "\n" + other;
    assert NEXT_HEADING[1..] == HEADING == other[..3] == rest[1..4];
    assert rest[..4] == NEXT_HEADING;
  }

  lemma Opening(mark: string, rest: string)
    ensures "" + "" + (mark + rest) == mark + rest && "" + rest == rest
  {
  }

  lemma OpeningMoves(other: string, rest: string)
    requires HEADING <= other && rest == "\n" + other
    ensures Stripped(HEADER + rest) == Stripped(other)
  {
    HeadingNext(other);
    Opening(HEADER, rest);
    StripSection("", "", rest);
    Opening("", other);
  }

  /** A body that opens with an empty plan section is stripped to what follows it. */
  lemma OpeningStrips(other: string)
    requires HEADING <= other && other[|other| - 1] != '\n' && Index(other, HEADER) < 0
    ensures Stripped(HEADER + ("\n" + other)) == other
  {
    OpeningMoves(other, "\n" + other);
    StripClean(other);
  }

  lemma TwoItems(md: Markdown, lead: seq<string>, heading: string, first: string, second: string)
    requires heading != "" && heading[0] == '#' && md.heading(heading) != "" && !md.isPlan(md.heading(heading))
    requires IsItem(first) && !IsChecked(first) && IsItem(second) && !IsChecked(second)
    requires Items(md, lead, |lead|) == []
    ensures var lines, n := lead + [heading, first, second], |lead|;
      Items(md, lines, n + 3) == [ItemAt(md, lines, n + 1), ItemAt(md, lines, n + 2)]
  {
    var lines, n := lead + [heading, first, second], |lead|;
    PrefixItems(md, lead, [heading, first, second], n);
    assert Items(md, lines, n + 1) == [];
    assert Items(md, lines, n + 2) == [ItemAt(md, lines, n + 1)];
  }

  /** A heading and two open items, below the given lines. */
  lemma TwoParsed(md: Markdown, body: string, lead: seq<string>, heading: string, first: string, second: string)
    requires heading != "" && heading[0] == '#' && md.heading(heading) != "" && !md.isPlan(md.heading(heading))
    requires IsItem(first) && !IsChecked(first) && IsItem(second) && !IsChecked(second)
    requires Items(md, lead, |lead|) == [] && Split(body) == lead + [heading, first, second]
    ensures IDs(Parsed(md, body)) == [ItemID(|lead| + 1), ItemID(|lead| + 2)]
    ensures forall k :: 0 <= k < |Parsed(md, body)| ==> !Parsed(md, body)[k].checked
  {
    TwoItems(md, lead, heading, first, second);
    var lines, n := lead + [heading, first, second], |lead|;
    assert lines[n + 1] == first && lines[n + 2] == second;
  }

  lemma ThreeLines(heading: string, first: string, second: string)
    requires OneLine(heading) && OneLine(first) && OneLine(second)
    ensures Split(heading + "\n" + (first + "\n" + second)) == [heading, first, second]
  {
    SplitLine(second);
    SplitHead(first, second);
    SplitHead(heading, first + "\n" + second);
  }

  lemma OtherItemID(m: nat, n: nat)
    requires m != n
    ensures ItemID(m) != ItemID(n)
  {
    if ItemID(m) == ItemID(n) {
      assert ItemID(m)[5..] == Dec(m) && ItemID(n)[5..] == Dec(n);
      DecInjective(m, n);
    }
  }

  /** A body that opens with an empty plan section, then a heading with two open items. */
  function Stale(heading: string, first: string, second: string): string {
    HEADER + ("\n" + (heading + "\n" + (first + "\n" + second)))
  }

  /** Such lines: no plan header among them. */
  predicate StaleParts(md: Markdown, heading: string, first: string, second: string) {
    && OneLine(heading) && OneLine(first) && OneLine(second)
    && HEADING <= heading && md.heading(heading) != "" && !md.isPlan(md.heading(heading))
    && IsItem(first) && !IsChecked(first) && IsItem(second) && !IsChecked(second)
    && Index(heading + "\n" + (first + "\n" + second), HEADER) < 0
  }

  lemma StaleBefore(md: Markdown, heading: string, first: string, second: string)
    requires KnowsPlanHeader(md) && StaleParts(md, heading, first, second)
    ensures IDs(Parsed(md, Stale(heading, first, second))) == [ItemID(2), ItemID(3)]
  {
    var other := heading + "\n" + (first + "\n" + second);
    ThreeLines(heading, first, second);
    HeaderShape();
    SplitHead(HEADER, other);
    PlanSections.Regroup(HEADER, "\n", other);
    assert Items(md, [HEADER], 1) == [];
    TwoParsed(md, Stale(heading, first, second), [HEADER], heading, first, second);
  }

  lemma StaleStrips(heading: string, first: string, second: string)
    requires HEADING <= heading && second != "" && OneLine(second)
    requires Index(heading + "\n" + (first + "\n" + second), HEADER) < 0
    ensures Stripped(Stale(heading, first, second)) == heading + "\n" + (first + "\n" + second)
  {
    var other := heading + "\n" + (first + "\n" + second);
    assert other[..3] == heading[..3] && other[|other| - 1] == second[|second| - 1];
    OpeningStrips(other);
  }

  lemma StaleAfter(md: Markdown, left: string, heading: string, first: string, second: string)
    requires StaleParts(md, heading, first, second) && Split(left) == [] + [heading, first, second]
    ensures IDs(Parsed(md, left)) == [ItemID(1), ItemID(2)]
    ensures forall k :: 0 <= k < |Parsed(md, left)| ==> !Parsed(md, left)[k].checked
  {
    TwoParsed(md, left, [], heading, first, second);
  }

  /**
    Items below a plan section: the goal advertises the first as item-2 and the second as
    item-3. After the strip they are item-1 and item-2, so a sync for the first ticks the
    second, and leaves the first open.
   */
  lemma StaleIDTicksAnother(md: Markdown, heading: string, first: string, second: string)
    requires KnowsPlanHeader(md) && StaleParts(md, heading, first, second)
    ensures var body := Stale(heading, first, second);
      var now := Parsed(md, Synced(md, Written(body, []), ByID({ItemID(2)})));
      && IDs(Parsed(md, body)) == [ItemID(2), ItemID(3)]
      && |now| == 2 && !now[0].checked && now[1].checked
  {
    var body := Stale(heading, first, second);
    var left := Parsed(md, Stripped(body));
    StaleBefore(md, heading, first, second);
    StaleStrips(heading, first, second);
    ThreeLines(heading, first, second);
    assert [] + [heading, first, second] == [heading, first, second];
    StaleAfter(md, Stripped(body), heading, first, second);
    assert |left| == |IDs(left)| == 2 && left[0].id == IDs(left)[0] && left[1].id == IDs(left)[1];
    PlanAddsNoItems(md, body, []);
    SyncedMarks(md, Written(body, []), {ItemID(2)});
    OtherItemID(1, 2);
  }
}

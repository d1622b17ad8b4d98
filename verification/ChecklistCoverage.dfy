/**
  From the issue to a completed checklist: the goal text advertises every unchecked
  item, the planner's gate demands a declaration for each of them, and a sync of the
  finished plan then leaves none unchecked.
 */
module Advertising {
  import opened Strings
  import opened Checklist

  function DigitRun(s: string): (n: nat)
    ensures n <= |s|
  {
    if s != [] && IsDigit(s[0]) then 1 + DigitRun(s[1..]) else 0
  }

  /** The id of a marker "[item-N]" at the start of s; "" when there is none. */
  function MarkerID(s: string): string {
    if "[item-" <= s then
      var n := DigitRun(s[6..]);
      if 0 < n && 6 + n < |s| && s[6 + n] == ']' then s[1..6 + n] else ""
    else ""
  }

  /**
    All marker ids in a text. A marker holds no second '[', so markers never overlap
    and a left-to-right search finds each of them.
   */
  function Markers(s: string): set<string> {
    if s == [] then {}
    else Markers(s[1..]) + if MarkerID(s) == "" then {} else {MarkerID(s)}
  }

  lemma {:induction false} DigitRunStops(digits: string, rest: string)
    requires forall i :: 0 <= i < |digits| ==> IsDigit(digits[i])
    requires rest != [] && !IsDigit(rest[0])
    ensures DigitRun(digits + rest) == |digits|
  {
    if digits == [] {
      assert digits + rest == rest;
    } else {
      assert (digits + rest)[1..] == digits[1..] + rest;
      DigitRunStops(digits[1..], rest);
    }
  }

  lemma MarkerIsRead(n: nat, after: string)
    ensures MarkerID("[" + ItemID(n) + "]" + after) == ItemID(n)
  {
    var s := "[" + ItemID(n) + "]" + after;
    assert s == "[item-" + Dec(n) + ("]" + after);
    assert s[6..] == Dec(n) + ("]" + after);
    DigitRunStops(Dec(n), "]" + after);
    assert s[1..6 + |Dec(n)|] == ItemID(n);
  }

  /** A marker is found wherever it stands. */
  lemma {:induction false} MarkerIsFound(before: string, n: nat, after: string)
    ensures ItemID(n) in Markers(before + ("[" + ItemID(n) + "]" + after))
  {
    var marker := "[" + ItemID(n) + "]" + after;
    if before == [] {
      MarkerIsRead(n, after);
      assert before + marker == marker;
    } else {
      assert (before + marker)[1..] == before[1..] + marker;
      MarkerIsFound(before[1..], n, after);
    }
  }

  function OfMark(items: seq<Item>, checked: bool): seq<Item> {
    if items == [] then []
    else
      var last := items[|items| - 1];
      OfMark(items[..|items| - 1], checked) + if last.checked == checked then [last] else []
  }

  lemma {:induction false} OfMarkFinds(items: seq<Item>, k: nat)
    requires k < |items|
    ensures items[k] in OfMark(items, items[k].checked)
  {
    if k < |items| - 1 {
      OfMarkFinds(items[..|items| - 1], k);
    }
  }

  /** The line that advertises an unchecked item to the planner. */
  function AdvertLine(item: Item): string {
    var id := if TrimSpace(item.id) == "" then ItemID(item.line) else TrimSpace(item.id);
    "  - [ ] [" + id + "] " + item.text + "\n"
  }

  function AdvertLines(items: seq<Item>): string {
    if items == [] then "" else AdvertLines(items[..|items| - 1]) + AdvertLine(items[|items| - 1])
  }

  function ContextLines(items: seq<Item>): string {
    if items == [] then "" else ContextLines(items[..|items| - 1]) + "  - [x] " + items[|items| - 1].text + "\n"
  }

  /** The parts of the goal that do not depend on the checklist. */
  datatype GoalText = GoalText(opening: string, instructions: string, context: string, description: string)

  method BuildGoal(parts: GoalText, checklist: seq<Item>) returns (goal: string)
    ensures goal == Goal(parts, checklist)
  {
    var unchecked: seq<Item>, checked: seq<Item> := [], [];
    for i := 0 to |checklist|
      invariant unchecked == OfMark(checklist[..i], false) && checked == OfMark(checklist[..i], true)
    {
      assert checklist[..i + 1][..i] == checklist[..i];
      if !checklist[i].checked {
        unchecked := unchecked + [checklist[i]];
      } else {
        checked := checked + [checklist[i]];
      }
    }
    assert checklist[..|checklist|] == checklist;
    goal := parts.opening;
    if unchecked != [] {
      var lines := Listing(unchecked);
      goal := goal + parts.instructions + lines + "\n";
      if checked != [] {
        var noted := Context(checked);
        goal := goal + parts.context + noted + "\n";
      }
    }
    goal := goal + parts.description;
  }

  method Listing(items: seq<Item>) returns (lines: string)
    ensures lines == AdvertLines(items)
  {
    lines := "";
    for i := 0 to |items|
      invariant lines == AdvertLines(items[..i])
    {
      assert items[..i + 1][..i] == items[..i];
      lines := lines + AdvertLine(items[i]);
    }
    assert items[..|items|] == items;
  }

  method Context(items: seq<Item>) returns (lines: string)
    ensures lines == ContextLines(items)
  {
    lines := "";
    for i := 0 to |items|
      invariant lines == ContextLines(items[..i])
    {
      assert items[..i + 1][..i] == items[..i];
      lines := lines + "  - [x] " + items[i].text + "\n";
    }
    assert items[..|items|] == items;
  }

  function Goal(parts: GoalText, checklist: seq<Item>): string {
    var unchecked, checked := OfMark(checklist, false), OfMark(checklist, true);
    if unchecked == [] then parts.opening + parts.description
    else parts.opening + parts.instructions + AdvertLines(unchecked) + Rest(parts, checked)
  }

  function Rest(parts: GoalText, checked: seq<Item>): string {
    if checked == [] then "\n" + parts.description
    else "\n" + parts.context + ContextLines(checked) + "\n" + parts.description
  }

  function Marker(n: nat): string {
    "[" + ItemID(n) + "]"
  }

  lemma Regroup(before: string, marker: string, after: string, rest: string)
    ensures before + (marker + after) + rest == before + (marker + (after + rest))
  {
  }

  lemma AdvertLineHolds(item: Item)
    requires item.id == ItemID(item.line)
    ensures AdvertLine(item) == "  - [ ] " + (Marker(item.line) + (" " + item.text + "\n"))
  {
    assert !IsSpace('i') && forall c :: IsDigit(c) ==> !IsSpace(c);
    TrimSpaceId(item.id);
  }

  /** Every advertised item's marker stands somewhere in the list. */
  lemma {:induction false} AdvertHolds(items: seq<Item>, item: Item) returns (before: string, after: string)
    requires item in items && item.id == ItemID(item.line)
    ensures AdvertLines(items) == before + (Marker(item.line) + after)
  {
    var last := items[|items| - 1];
    if item == last {
      AdvertLineHolds(item);
      var lines := AdvertLines(items[..|items| - 1]);
      before, after := lines + "  - [ ] ", " " + item.text + "\n";
      assert lines + ("  - [ ] " + (Marker(item.line) + after)) == before + (Marker(item.line) + after);
    } else {
      before, after := AdvertHolds(items[..|items| - 1], item);
      Regroup(before, Marker(item.line), after, AdvertLine(last));
      after := after + AdvertLine(last);
    }
  }

  /** The goal advertises every unchecked item, whatever the rest of its text is. */
  lemma GoalAdvertises(parts: GoalText, checklist: seq<Item>, k: nat)
    requires k < |checklist| && !checklist[k].checked && checklist[k].id == ItemID(checklist[k].line)
    ensures checklist[k].id in Markers(Goal(parts, checklist))
  {
    var n := checklist[k].line;
    OfMarkFinds(checklist, k);
    var lead, lines := parts.opening + parts.instructions, AdvertLines(OfMark(checklist, false));
    var rest := Rest(parts, OfMark(checklist, true));
    var before, after := AdvertHolds(OfMark(checklist, false), checklist[k]);
    assert lead + (before + (Marker(n) + after)) == (lead + before) + (Marker(n) + after);
    Regroup(lead + before, Marker(n), after, rest);
    MarkerIsFound(lead + before, n, after + rest);
  }
}

/** The planner's retry loop and its plan-quality gate. */
module PlanningSession {
  import opened State
  import opened Strings
  import opened ChecklistSync
  import opened Advertising

  /** Advertised items that no sub-task declares. */
  function Missing(goal: string, tasks: seq<SubTask>): set<string> {
    Markers(goal) - Declared(tasks)
  }

  method ValidateChecklistDeclaration(goal: string, tasks: seq<SubTask>) returns (missing: seq<string>)
    ensures forall id :: id in missing <==> id in Missing(goal, tasks)
    ensures forall i, j :: 0 <= i < j < |missing| ==> missing[i] != missing[j]
    ensures Ordered(missing)
  {
    var advertised := Markers(goal);
    missing := [];
    if advertised == {} {
      return;
    }
    var declared: set<string> := {};
    for i := 0 to |tasks|
      invariant declared == Declared(tasks[..i])
    {
      assert tasks[..i + 1][..i] == tasks[..i];
      var some;
      declared, some := AddDeclared(declared, tasks[i].checklistItemIDs);
    }
    assert tasks[..|tasks|] == tasks;
    var left := advertised;
    while left != {}
      invariant left <= advertised
      invariant forall id :: id in missing <==> id in advertised - left && id !in declared
      invariant forall i, j :: 0 <= i < j < |missing| ==> missing[i] != missing[j]
    {
      var id :| id in left;
      left := left - {id};
      if id !in declared {
        missing := missing + [id];
      }
    }
    SortStringsSorts(missing);
    SameMembersDistinct(missing, SortStrings(missing));
    missing := SortStrings(missing);
  }

  /** A planner call: an error, or a reply with the tasks parsed from it (None: malformed). */
  datatype Answer =
    | CallError
    | Reply(session: string, input: int, output: int, cost: real, tasks: Option<seq<SubTask>>)

  datatype RetryReason = QualityReason | EmptyReason | MalformedReason

  datatype PlanOutcome =
    | PlannerCallFailed
    | Accepted(tasks: seq<SubTask>)
    | QualityRejected
    | EmptyPlan
    | MalformedPlan

  /**
    What the loop asks of its surroundings: the answers, the reading of a task as
    "execute the goal directly", the gates other than the checklist gate, and the
    recovery policy.
   */
  datatype Surroundings = Surroundings(
    answers: int -> Answer,
    direct: SubTask -> bool,
    gates: (string, seq<SubTask>) -> bool,
    retries: (int, RetryReason) -> bool)

  predicate IsDirect(env: Surroundings, tasks: seq<SubTask>) {
    |tasks| == 1 && env.direct(tasks[0])
  }

  predicate PassesGate(env: Surroundings, goal: string, tasks: seq<SubTask>) {
    env.gates(goal, tasks) && Missing(goal, tasks) == {}
  }

  /** How one attempt ends the loop; None: the planner is asked again. */
  function Verdict(env: Surroundings, goal: string, attempt: int): Option<PlanOutcome> {
    match env.answers(attempt)
    case CallError => Some(PlannerCallFailed)
    case Reply(_, _, _, _, None) =>
      if env.retries(attempt, MalformedReason) then None else Some(MalformedPlan)
    case Reply(_, _, _, _, Some(tasks)) =>
      if tasks == [] then
        if env.retries(attempt, EmptyReason) then None else Some(EmptyPlan)
      else if IsDirect(env, tasks) || PassesGate(env, goal, tasks) then Some(Accepted(tasks))
      else if env.retries(attempt, QualityReason) then None
      else Some(QualityRejected)
  }

  datatype Spent = Spent(input: int, output: int, cost: real)

  /** The tokens and cost of the first n attempts; a failed call reports none. */
  function SpentBy(answers: int -> Answer, n: nat): Spent {
    if n == 0 then Spent(0, 0, 0.0)
    else
      var before := SpentBy(answers, n - 1);
      match answers(n)
      case CallError => before
      case Reply(_, input, output, cost, _) => Spent(before.input + input, before.output + output, before.cost + cost)
  }

  /** The session after n attempts: the last one that a reply named. */
  function SessionAfter(session: string, answers: int -> Answer, n: nat): string {
    if n == 0 then session
    else if answers(n).Reply? && answers(n).session != "" then answers(n).session
    else SessionAfter(session, answers, n - 1)
  }

  method ValidatePlanQuality(env: Surroundings, goal: string, tasks: seq<SubTask>) returns (sound: bool)
    ensures sound == PassesGate(env, goal, tasks)
  {
    if !env.gates(goal, tasks) {
      return false;
    }
    var missing := ValidateChecklistDeclaration(goal, tasks);
    assert missing != [] ==> missing[0] in Missing(goal, tasks);
    sound := missing == [];
  }

  class PlannerSession {
    var sessionID: string
    const maxRetries: int

    constructor (maxRetries: int, sessionID: string)
      ensures this.maxRetries == maxRetries && this.sessionID == sessionID
    {
      this.maxRetries, this.sessionID := maxRetries, sessionID;
    }

    method Plan(goal: string, env: Surroundings) returns (outcome: PlanOutcome, spent: Spent, attempts: nat)
      modifies this
      ensures attempts <= if maxRetries > 0 then maxRetries else 0
      ensures forall a :: 1 <= a < attempts ==> Verdict(env, goal, a) == None
      ensures attempts > 0 && Verdict(env, goal, attempts).Some? ==> outcome == Verdict(env, goal, attempts).value
      ensures attempts == 0 || Verdict(env, goal, attempts) == None ==>
        outcome == MalformedPlan && attempts == if maxRetries > 0 then maxRetries else 0
      ensures spent == SpentBy(env.answers, attempts)
      ensures sessionID == SessionAfter(old(sessionID), env.answers, attempts)
    {
      spent, attempts := Spent(0, 0, 0.0), 0;
      while attempts < maxRetries
        invariant 0 <= attempts <= if maxRetries > 0 then maxRetries else 0
        invariant forall a :: 1 <= a <= attempts ==> Verdict(env, goal, a) == None
        invariant spent == SpentBy(env.answers, attempts)
        invariant sessionID == SessionAfter(old(sessionID), env.answers, attempts)
      {
        attempts := attempts + 1;
        var answer := env.answers(attempts);
        if answer.CallError? {
          return PlannerCallFailed, spent, attempts;
        }
        if answer.session != "" {
          sessionID := answer.session;
        }
        spent := Spent(spent.input + answer.input, spent.output + answer.output, spent.cost + answer.cost);
        if answer.tasks.Some? && answer.tasks.value != [] {
          var tasks := answer.tasks.value;
          if |tasks| == 1 && env.direct(tasks[0]) {
            return Accepted(tasks), spent, attempts;
          }
          var sound := ValidatePlanQuality(env, goal, tasks);
          if sound {
            return Accepted(tasks), spent, attempts;
          }
          if !env.retries(attempts, QualityReason) {
            return QualityRejected, spent, attempts;
          }
        } else if answer.tasks.Some? {
          if !env.retries(attempts, EmptyReason) {
            return EmptyPlan, spent, attempts;
          }
        } else if !env.retries(attempts, MalformedReason) {
          return MalformedPlan, spent, attempts;
        }
      }
      outcome := MalformedPlan;
    }
  }

  /**
    An accepted plan is never empty, and leaves advertised items undeclared only as a
    single direct-execution task.
   */
  lemma AcceptedIsCovered(env: Surroundings, goal: string, attempt: int, tasks: seq<SubTask>)
    requires Verdict(env, goal, attempt) == Some(Accepted(tasks))
    ensures tasks != []
    ensures Missing(goal, tasks) != {} ==> |tasks| == 1 && env.direct(tasks[0])
  {
    var answer := env.answers(attempt);
    assert answer.Reply? && answer.tasks == Some(tasks);
  }
}

/** The checklist from the first parse to the last. */
module ChecklistCoverage {
  import opened State
  import opened Strings
  import opened Checklist
  import opened Lines
  import opened ChecklistSync
  import opened Advertising
  import opened PlanningSession

  ghost predicate AllChecked(items: seq<Item>) {
    forall k :: 0 <= k < |items| ==> items[k].checked
  }

  ghost predicate Unchecked(items: seq<Item>, id: string) {
    exists k :: 0 <= k < |items| && !items[k].checked && items[k].id == id
  }

  /** Under declarations, a sync completes the checklist iff every unchecked item is declared by a finished sub-task. */
  lemma SyncCompletesExactly(md: Markdown, similar: (string, string) -> bool, body: string, plan: seq<SubTask>)
    requires Declared(Finished(plan)) != {}
    ensures AllChecked(Parsed(md, Synced(md, body, SyncRule(similar, plan)))) <==>
      forall id :: Unchecked(Parsed(md, body), id) ==> id in Declared(Finished(plan))
  {
    var rule := SyncRule(similar, plan);
    var was, now := Parsed(md, body), Parsed(md, Synced(md, body, rule));
    TickReparses(md, body, Chosen(md, Split(body), rule));
    forall k | 0 <= k < |was| ensures now[k].checked <==> was[k].checked || was[k].id in Declared(Finished(plan)) {
      SyncMarks(md, body, rule, k);
    }
    if AllChecked(now) {
      forall id | Unchecked(was, id) ensures id in Declared(Finished(plan)) {
        var k :| 0 <= k < |was| && !was[k].checked && was[k].id == id;
        assert now[k].checked;
      }
    }
    if forall id :: Unchecked(was, id) ==> id in Declared(Finished(plan)) {
      forall k | 0 <= k < |now| ensures now[k].checked {
        assert !was[k].checked ==> Unchecked(was, was[k].id);
      }
    }
  }

  ghost predicate SameDeclarations(planned: seq<SubTask>, finished: seq<SubTask>) {
    && |planned| == |finished|
    && forall k :: 0 <= k < |planned| ==> finished[k].checklistItemIDs == planned[k].checklistItemIDs
  }

  ghost predicate AllDone(plan: seq<SubTask>) {
    forall k :: 0 <= k < |plan| ==> plan[k].status.SubDone?
  }

  lemma {:induction false} DoneDeclares(planned: seq<SubTask>, finished: seq<SubTask>)
    requires SameDeclarations(planned, finished) && AllDone(finished)
    ensures Finished(finished) == finished && Declared(finished) == Declared(planned)
  {
    if finished == [] {
    } else {
      DoneDeclares(planned[..|planned| - 1], finished[..|finished| - 1]);
      assert finished == finished[..|finished| - 1] + [finished[|finished| - 1]];
    }
  }

  lemma ParsedID(md: Markdown, body: string, k: nat)
    requires k < |Parsed(md, body)|
    ensures Parsed(md, body)[k].id == ItemID(Parsed(md, body)[k].line)
  {
    ItemsAreLines(md, Split(body), |Split(body)|);
  }

  lemma CheckedStayChecked(md: Markdown, body: string, picks: Item -> bool)
    requires AllChecked(Parsed(md, body))
    ensures AllChecked(Parsed(md, Synced(md, body, picks)))
  {
    TickReparses(md, body, Chosen(md, Split(body), picks));
  }

  lemma NoneUnchecked(items: seq<Item>)
    ensures AllChecked(items) <==> forall id :: !Unchecked(items, id)
  {
    if !AllChecked(items) {
      var k :| 0 <= k < |items| && !items[k].checked;
      assert Unchecked(items, items[k].id);
    }
  }

  /** Every item that the body leaves unchecked is advertised in the goal. */
  ghost predicate AllAdvertised(md: Markdown, goal: string, body: string) {
    forall id :: Unchecked(Parsed(md, body), id) ==> id in Markers(goal)
  }

  /** The goal made from a body advertises all it leaves unchecked. */
  lemma GoalCovers(md: Markdown, body: string, parts: GoalText)
    ensures AllAdvertised(md, Goal(parts, Parsed(md, body)), body)
  {
    var items := Parsed(md, body);
    forall id | Unchecked(items, id) ensures id in Markers(Goal(parts, items)) {
      var k :| 0 <= k < |items| && !items[k].checked && items[k].id == id;
      ParsedID(md, body, k);
      GoalAdvertises(parts, items, k);
    }
  }

  /** A plan that passes the gate declares every item that the goal's checklist leaves unchecked. */
  lemma GateDeclaresAll(md: Markdown, body: string, parts: GoalText, items: seq<Item>, goal: string,
                        planned: seq<SubTask>)
    requires items == Parsed(md, body) && goal == Goal(parts, items)
    requires Missing(goal, planned) == {}
    ensures forall id :: Unchecked(items, id) ==> id in Declared(planned)
  {
    GoalCovers(md, body, parts);
    forall id | Unchecked(items, id) ensures id in Declared(planned) {
      assert id in Markers(goal) && id !in Missing(goal, planned);
    }
  }

  /**
    A plan that passes the gate against a goal, and whose sub-tasks all end Done, leaves no
    unchecked item once a body is synced and parsed again, if the goal advertised all that
    this body leaves unchecked. The goal may have been made from an earlier body.
   */
  lemma CoverageCompletes(md: Markdown, similar: (string, string) -> bool, goal: string,
                          planned: seq<SubTask>, finished: seq<SubTask>, later: string)
    requires Missing(goal, planned) == {}
    requires SameDeclarations(planned, finished) && AllDone(finished)
    requires AllAdvertised(md, goal, later)
    ensures AllChecked(Parsed(md, Synced(md, later, SyncRule(similar, finished))))
  {
    DoneDeclares(planned, finished);
    forall id | Unchecked(Parsed(md, later), id) ensures id in Declared(finished) {
      assert id in Markers(goal) && id !in Missing(goal, planned);
    }
    if Declared(finished) != {} {
      SyncCompletesExactly(md, similar, later, finished);
    } else {
      NoneUnchecked(Parsed(md, later));
      CheckedStayChecked(md, later, SyncRule(similar, finished));
    }
  }

  // ---------- What the gate does not ask for ----------

  lemma {:induction false} DigitsRun(s: string)
    ensures forall i :: 0 <= i < DigitRun(s) ==> IsDigit(s[i])
  {
    if s != [] && IsDigit(s[0]) {
      DigitsRun(s[1..]);
    }
  }

  lemma MarkerIDIsPlain(s: string)
    ensures var id := MarkerID(s);
      id != "" ==> TrimSpace(id) == id && OneLine(id)
  {
    var id := MarkerID(s);
    if id != "" {
      DigitsRun(s[6..]);
      assert id == "item-" + s[6..][..|id| - 5];
      assert forall c :: IsDigit(c) ==> !IsSpace(c) && c != '\n';
      TrimSpaceId(id);
    }
  }

  /** Advertised ids hold neither blanks around them nor a newline. */
  lemma {:induction false} MarkersArePlain(goal: string, id: string)
    requires id in Markers(goal)
    ensures id != "" && TrimSpace(id) == id && OneLine(id)
  {
    if id == MarkerID(goal) && id != "" {
      MarkerIDIsPlain(goal);
    } else {
      MarkersArePlain(goal[1..], id);
    }
  }

  lemma {:induction false} Listed(ids: set<string>) returns (list: seq<string>)
    ensures forall id :: id in list <==> id in ids
  {
    if ids == {} {
      list := [];
    } else {
      var id :| id in ids;
      list := Listed(ids - {id});
      list := list + [id];
    }
  }

  lemma {:induction false} DeclaresListed(list: seq<string>)
    requires forall id :: id in list ==> id != "" && TrimSpace(id) == id
    ensures forall id :: id in DeclaredIn(list) <==> id in list
  {
    if list == [] {
    } else {
      var front, last := list[..|list| - 1], list[|list| - 1];
      assert list == front + [last];
      assert forall id :: id in list <==> id in front || id == last;
      DeclaresListed(front);
    }
  }

  /** A done task, without a description, that declares the given ids. */
  function DoneTask(ids: seq<string>): SubTask {
    SubTask("", "", SubDone, [], 0, 0, ids, [])
  }

  /** What the gate demands, and an id that no item has. */
  lemma JustEnough(goal: string) returns (ids: seq<string>)
    ensures Declared([DoneTask(ids)]) == Markers(goal) + {"-"}
    ensures forall k :: 0 <= k < |ids| ==> OneLine(ids[k])
  {
    var list := Listed(Markers(goal));
    ids := list + ["-"];
    TrimSpaceId("-");
    forall id | id in ids ensures id != "" && TrimSpace(id) == id && OneLine(id) {
      if id in list {
        MarkersArePlain(goal, id);
      }
    }
    DeclaresListed(ids);
    assert [DoneTask(ids)][..0] == [];
    assert Declared([DoneTask(ids)]) == DeclaredIn(ids);
  }

  /** An unchecked item that the goal did not advertise stays unchecked under a plan that the gate lets through. */
  lemma UnadvertisedStays(md: Markdown, similar: (string, string) -> bool, goal: string, later: string,
                          ids: seq<string>)
    requires !AllAdvertised(md, goal, later)
    requires Declared([DoneTask(ids)]) == Markers(goal) + {"-"}
    ensures Missing(goal, [DoneTask(ids)]) == {}
    ensures !AllChecked(Parsed(md, Synced(md, later, SyncRule(similar, [DoneTask(ids)]))))
  {
    var plan := [DoneTask(ids)];
    assert Finished(plan) == plan by {
      DoneDeclares(plan, plan);
    }
    var items := Parsed(md, later);
    var id :| Unchecked(items, id) && id !in Markers(goal);
    var k :| 0 <= k < |items| && !items[k].checked && items[k].id == id;
    ParsedID(md, later, k);
    assert id[0] == 'i' && id !in Declared(plan);
    SyncCompletesExactly(md, similar, later, plan);
  }

  /** The finished form of any plan that passes the gate completes the body's checklist. */
  ghost predicate GateCompletes(md: Markdown, similar: (string, string) -> bool, goal: string, later: string) {
    forall planned, finished ::
      Missing(goal, planned) == {} && SameDeclarations(planned, finished) && AllDone(finished) ==>
      AllChecked(Parsed(md, Synced(md, later, SyncRule(similar, finished))))
  }

  /** The gate is enough exactly when the goal advertises all that the synced body leaves unchecked. */
  lemma GateCompletesExactly(md: Markdown, similar: (string, string) -> bool, goal: string, later: string)
    ensures GateCompletes(md, similar, goal, later) <==> AllAdvertised(md, goal, later)
  {
    if AllAdvertised(md, goal, later) {
      forall planned, finished |
        Missing(goal, planned) == {} && SameDeclarations(planned, finished) && AllDone(finished)
        ensures AllChecked(Parsed(md, Synced(md, later, SyncRule(similar, finished))))
      {
        CoverageCompletes(md, similar, goal, planned, finished, later);
      }
    } else {
      var ids := JustEnough(goal);
      UnadvertisedStays(md, similar, goal, later, ids);
      assert SameDeclarations([DoneTask(ids)], [DoneTask(ids)]);
    }
  }

  /** The gate does not apply to a direct-execution task: it is accepted with unchecked items undeclared. */
  lemma DirectPlanSkipsGate(md: Markdown, body: string, parts: GoalText, env: Surroundings, task: SubTask, id: string)
    requires Unchecked(Parsed(md, body), id)
    requires env.answers(1).Reply? && env.answers(1).tasks == Some([task])
    requires env.direct(task) && task.checklistItemIDs == []
    ensures Verdict(env, Goal(parts, Parsed(md, body)), 1) == Some(Accepted([task]))
    ensures Missing(Goal(parts, Parsed(md, body)), [task]) != {}
  {
    var items := Parsed(md, body);
    assert Declared([task]) == {};
    if Missing(Goal(parts, items), [task]) == {} {
      GateDeclaresAll(md, body, parts, items, Goal(parts, items), [task]);
      assert false;
    }
  }

  /** When such a task is done, the sync ticks only the items whose text resembles its description. */
  lemma UndeclaredTicksByText(md: Markdown, similar: (string, string) -> bool, body: string, task: SubTask, k: nat)
    requires task.status.SubDone? && task.checklistItemIDs == []
    requires k < |Parsed(md, body)| && !Parsed(md, body)[k].checked
    ensures |Parsed(md, Synced(md, body, SyncRule(similar, [task])))| > k
    ensures Parsed(md, Synced(md, body, SyncRule(similar, [task])))[k].checked <==>
      Matches(similar, Parsed(md, body)[k].text, task.description)
  {
    assert Finished([task]) == [task];
    assert Declared([task]) == {};
    SyncMarks(md, body, SyncRule(similar, [task]), k);
    assert Descriptions([task]) == [task.description];
    var text := Parsed(md, body)[k].text;
    assert SyncRule(similar, [task])(Parsed(md, body)[k]) == MatchesAny(similar, text, [task.description]);
    assert [task.description][0] == task.description;
  }
}

/**
  The plan section that Hermes writes into an issue body: removing earlier ones and
  appending a fresh one.
 */
module PlanSections {
  import opened State
  import opened Strings
  import opened Lines

  const HEADING := "## "

  const HEADER := "## Hermes 執行計劃"

  const NEXT_HEADING := "\n## "

  // ---------- Substring search ----------

  /** strings.Index. */
  function Index(s: string, pattern: string): (r: int)
    ensures -1 <= r <= |s|
    ensures 0 <= r ==> r + |pattern| <= |s| && pattern <= s[r..]
  {
    if pattern <= s then 0
    else if s == [] then -1
    else
      var r := Index(s[1..], pattern);
      if r < 0 then -1 else r + 1
  }

  lemma {:induction false} IndexIsFirst(s: string, pattern: string, i: nat)
    requires i <= |s| && pattern <= s[i..]
    ensures 0 <= Index(s, pattern) <= i
  {
    if !(pattern <= s) {
      assert i > 0;
      assert s[1..][i - 1..] == s[i..];
      IndexIsFirst(s[1..], pattern, i - 1);
    }
  }

  /** The first occurrence is at i when there is one at i and none before it. */
  lemma IndexAt(s: string, pattern: string, i: nat)
    requires i <= |s| && pattern <= s[i..]
    requires forall j :: 0 <= j < i ==> !(pattern <= s[j..])
    ensures Index(s, pattern) == i
  {
    IndexIsFirst(s, pattern, i);
  }

  function TrimNewlines(s: string): (r: string)
    ensures r <= s && (r != [] ==> r[|r| - 1] != '\n')
  {
    if s != [] && s[|s| - 1] == '\n' then TrimNewlines(s[..|s| - 1]) else s
  }

  lemma {:induction false} TrimsBack(s: string, tail: string)
    requires s != [] ==> s[|s| - 1] != '\n'
    requires forall i :: 0 <= i < |tail| ==> tail[i] == '\n'
    ensures TrimNewlines(s + tail) == s
  {
    if tail == [] {
      assert s + tail == s;
    } else {
      assert (s + tail)[..|s + tail| - 1] == s + tail[..|tail| - 1];
      TrimsBack(s, tail[..|tail| - 1]);
    }
  }

  // ---------- Stripping ----------

  /** The body without its first plan section, whose header is at idx. */
  function Without(body: string, idx: nat): (r: string)
    requires idx + |HEADER| <= |body|
    ensures |r| < |body|
  {
    var tail := body[idx + |HEADER|..];
    var next := Index(tail, NEXT_HEADING);
    TrimNewlines(body[..idx]) + if next < 0 then "" else tail[next + 1..]
  }

  function Sectionless(body: string): (r: string)
    ensures Index(r, HEADER) < 0
    decreases |body|
  {
    var idx := Index(body, HEADER);
    if idx < 0 then body else Sectionless(Without(body, idx))
  }

  function Stripped(body: string): string {
    TrimNewlines(Sectionless(body))
  }

  /** Where the blank lines before position idx begin. */
  method BlankStart(body: string, idx: nat) returns (start: nat)
    requires idx <= |body|
    ensures start <= idx && body[..start] == TrimNewlines(body[..idx])
  {
    start := idx;
    while start > 0 && body[start - 1] == '\n'
      invariant start <= idx
      invariant TrimNewlines(body[..start]) == TrimNewlines(body[..idx])
    {
      assert body[..start][..start - 1] == body[..start - 1];
      start := start - 1;
    }
  }

  method RemoveSection(body: string, idx: nat) returns (rest: string)
    requires idx + |HEADER| <= |body|
    ensures rest == Without(body, idx)
  {
    var tail := body[idx + |HEADER|..];
    var next := Index(tail, NEXT_HEADING);
    var end := if next < 0 then |body| else idx + |HEADER| + next + 1;
    var start := BlankStart(body, idx);
    rest := body[..start] + body[end..];
  }

  method StripHermesPlanSections(original: string) returns (body: string)
    ensures body == Stripped(original)
  {
    body := original;
    while true
      invariant Sectionless(body) == Sectionless(original)
      decreases |body|
    {
      var idx := Index(body, HEADER);
      if idx < 0 {
        break;
      }
      body := RemoveSection(body, idx);
    }
    body := TrimNewlines(body);
  }

  /** No plan header is left. */
  lemma StripLeavesNoHeader(body: string)
    ensures Index(Stripped(body), HEADER) < 0
  {
    var s, r := Sectionless(body), Stripped(body);
    if Index(r, HEADER) >= 0 {
      var i: nat := Index(r, HEADER);
      assert HEADER <= s[i..];
      IndexIsFirst(s, HEADER, i);
    }
  }

  /** A body without a header only loses its trailing newlines; stripping twice is stripping once. */
  lemma StripTwice(body: string)
    ensures Index(body, HEADER) < 0 ==> Stripped(body) == TrimNewlines(body)
    ensures Stripped(Stripped(body)) == Stripped(body)
  {
    StripLeavesNoHeader(body);
  }

  // ---------- Writing ----------

  function JoinIDs(ids: seq<string>): string {
    if ids == [] then ""
    else if |ids| == 1 then ids[0]
    else JoinIDs(ids[..|ids| - 1]) + ", " + ids[|ids| - 1]
  }

  function TaskLine(number: nat, task: SubTask): string {
    Dec(number) + ". " + task.description
    + (if task.checklistItemIDs == [] then "" else " _(covers: " + JoinIDs(task.checklistItemIDs) + ")_") + "\n"
  }

  function TaskLines(tasks: seq<SubTask>): string {
    if tasks == [] then "" else TaskLines(tasks[..|tasks| - 1]) + TaskLine(|tasks|, tasks[|tasks| - 1])
  }

  /** What follows the header in a written section. */
  function Section(tasks: seq<SubTask>): string {
    "\n\n" + TaskLines(tasks)
  }

  function Gap(clean: string): string {
    if clean == "" then "\n" else "\n\n"
  }

  /** The body with its plan sections replaced by one for these tasks. */
  function Written(body: string, tasks: seq<SubTask>): string {
    Stripped(body) + Gap(Stripped(body)) + HEADER + Section(tasks)
  }

  method AppendTasks(lead: string, tasks: seq<SubTask>) returns (written: string)
    ensures written == lead + TaskLines(tasks)
  {
    written := lead;
    for i := 0 to |tasks|
      invariant written == lead + TaskLines(tasks[..i])
    {
      assert tasks[..i + 1][..i] == tasks[..i];
      written := written + TaskLine(i + 1, tasks[i]);
    }
    assert tasks[..|tasks|] == tasks;
  }

  lemma Regroup(lead: string, gap: string, lines: string)
    ensures lead + gap + lines == lead + (gap + lines)
  {
  }

  method WritePlan(body: string, tasks: seq<SubTask>) returns (written: string)
    ensures written == Written(body, tasks)
  {
    var clean := StripHermesPlanSections(body);
    written := clean;
    if clean != "" && clean[|clean| - 1] != '\n' {
      written := written + "\n";
    }
    written := written + "\n";
    assert written == clean + Gap(clean);
    written := written + HEADER;
    Regroup(written, "\n\n", TaskLines(tasks));
    written := AppendTasks(written + "\n\n", tasks);
  }

  // ---------- Where headers are found ----------

  lemma HeaderShape()
    ensures |HEADER| > 3 && HEADER[0] == '#' && HEADER[1] == '#' && HEADER[2] == ' '
    ensures forall k :: 2 <= k < |HEADER| ==> HEADER[k] != '#'
    ensures forall k :: 0 <= k < |HEADER| ==> HEADER[k] != '\n'
  {
  }

  /** Text that is clean: no plan header, no trailing newline. */
  ghost predicate Clean(text: string) {
    Index(text, HEADER) < 0 && (text != [] ==> text[|text| - 1] != '\n')
  }

  lemma NoHeaderInside(text: string, tail: string, j: nat)
    requires Clean(text) && j + |HEADER| <= |text|
    ensures !(HEADER <= (text + tail)[j..])
  {
    if HEADER <= (text + tail)[j..] {
      assert HEADER <= text[j..];
      IndexIsFirst(text, HEADER, j);
    }
  }

  lemma HeaderAt(s: string, j: nat, k: nat)
    requires j <= |s| && HEADER <= s[j..] && k < |HEADER|
    ensures s[j + k] == HEADER[k]
  {
    assert s[j..][k] == HEADER[k];
  }

  /** No header begins in clean text that newlines or a heading follow. */
  lemma NoHeaderBefore(text: string, tail: string, j: nat)
    requires Clean(text) && j < |text|
    requires tail != [] && (tail[0] == '\n' || HEADING <= tail)
    ensures !(HEADER <= (text + tail)[j..])
  {
    HeaderShape();
    if j + |HEADER| <= |text| {
      NoHeaderInside(text, tail, j);
    } else if HEADER <= (text + tail)[j..] {
      HeaderAt(text + tail, j, |text| - j);
      HeaderAt(text + tail, j, 2);
    }
  }

  lemma FirstHeader(text: string, blank: string, tail: string)
    requires Clean(text) && HEADER <= tail
    requires forall i :: 0 <= i < |blank| ==> blank[i] == '\n'
    ensures Index(text + blank + tail, HEADER) == |text + blank|
  {
    var s := text + blank + tail;
    assert s == text + (blank + tail);
    forall j | 0 <= j < |text + blank| ensures !(HEADER <= s[j..]) {
      if j < |text| {
        assert (blank + tail)[0] == '\n' || HEADING <= blank + tail;
        NoHeaderBefore(text, blank + tail, j);
      } else {
        assert s[j] == blank[j - |text|];
        assert s[j..][0] == '\n';
      }
    }
    assert s[|text + blank|..] == tail;
    IndexAt(s, HEADER, |text + blank|);
  }

  lemma StripClean(text: string)
    requires Clean(text)
    ensures Stripped(text) == text
  {
  }

  /** Stripping what follows clean text: the section goes, and the text after it moves up. */
  lemma StripSection(text: string, blank: string, rest: string)
    requires Clean(text)
    requires forall i :: 0 <= i < |blank| ==> blank[i] == '\n'
    ensures Stripped(text + blank + (HEADER + rest)) ==
      var next := Index(rest, NEXT_HEADING);
      if next < 0 then text else Stripped(text + rest[next + 1..])
  {
    var s := text + blank + (HEADER + rest);
    FirstHeader(text, blank, HEADER + rest);
    assert s[..|text + blank|] == text + blank;
    assert s[|text + blank| + |HEADER|..] == rest;
    TrimsBack(text, blank);
    StripClean(text);
    assert text + "" == text;
  }

  /** Every level-2 heading in the rest of a section is itself a plan header. */
  predicate OnlyPlanSections(rest: string)
    decreases |rest|
  {
    var next := Index(rest, NEXT_HEADING);
    next < 0 || (HEADER <= rest[next + 1..] && OnlyPlanSections(rest[next + 1 + |HEADER|..]))
  }

  lemma {:induction false} TrimKeeps(s: string, k: nat)
    requires k < |s| && s[k] != '\n'
    ensures |TrimNewlines(s)| > k
  {
    if s[|s| - 1] == '\n' {
      TrimKeeps(s[..|s| - 1], k);
    }
  }

  /** A plan header after another heading begins past that heading's mark. */
  lemma HeaderPastMark(text: string, other: string)
    requires Clean(text) && HEADING <= other && !(HEADER <= other)
    requires Index(text + other, HEADER) >= 0
    ensures Index(text + other, HEADER) >= |text| + 3
  {
    var s := text + other;
    var idx: nat := Index(s, HEADER);
    assert s[|text|..] == other;
    assert s[|text| + 2] == HEADING[2] == ' ';
    if idx < |text| {
      NoHeaderBefore(text, other, idx);
    }
  }

  lemma ForeignMoves(other: string, kept: string, moved: string)
    requires !(HEADER <= other) && kept <= other && HEADING <= kept
    requires moved == "" || HEADING <= moved
    ensures HEADING <= kept + moved && !(HEADER <= kept + moved)
  {
    HeaderShape();
    if |kept| < |HEADER| && moved != "" {
      assert (kept + moved)[|kept|] == '#';
    }
  }

  lemma NextIsHeading(rest: string)
    requires Index(rest, NEXT_HEADING) >= 0
    ensures HEADING <= rest[Index(rest, NEXT_HEADING) + 1..]
  {
    var next: nat := Index(rest, NEXT_HEADING);
    assert rest[next..][1..] == rest[next + 1..];
    assert NEXT_HEADING[1..] == HEADING;
  }

  lemma TrimPast(text: string, other: string, mark: nat, n: nat) returns (kept: string)
    requires mark < n <= |other| && other[mark] != '\n'
    ensures TrimNewlines((text + other)[..|text| + n]) == text + kept
    ensures kept <= other && mark < |kept| <= n
  {
    var s := (text + other)[..|text| + n];
    assert s == text + other[..n];
    TrimKeeps(s, |text| + mark);
    kept := TrimNewlines(s)[|text|..];
    assert TrimNewlines(s) <= s;
    assert kept == other[..|kept|];
  }

  lemma Cut(text: string, other: string, idx: nat, kept: string) returns (moved: string)
    requires |text| <= idx && idx + |HEADER| <= |text + other|
    requires TrimNewlines((text + other)[..idx]) == text + kept && |kept| <= idx - |text|
    ensures Without(text + other, idx) == text + (kept + moved)
    ensures |kept + moved| < |other| && (moved == "" || HEADING <= moved)
  {
    var tail := (text + other)[idx + |HEADER|..];
    var next := Index(tail, NEXT_HEADING);
    moved := if next < 0 then "" else tail[next + 1..];
    if next >= 0 {
      NextIsHeading(tail);
    }
    Regroup(text, kept, moved);
  }

  /** Stripping a plan section that comes after another heading leaves that heading in place. */
  lemma ForeignStep(text: string, other: string) returns (left: string)
    requires Clean(text) && HEADING <= other && !(HEADER <= other)
    requires Index(text + other, HEADER) >= 0
    ensures Without(text + other, Index(text + other, HEADER)) == text + left
    ensures HEADING <= left && !(HEADER <= left) && |left| < |other|
  {
    var idx: nat := Index(text + other, HEADER);
    HeaderPastMark(text, other);
    var kept := TrimPast(text, other, 2, idx - |text|);
    var moved := Cut(text, other, idx, kept);
    ForeignMoves(other, kept, moved);
    left := kept + moved;
  }

  lemma MarkSurvives(text: string, other: string, mark: string)
    requires mark <= other && mark != "" && mark[|mark| - 1] != '\n'
    ensures text + mark <= TrimNewlines(text + other)
  {
    var kept := TrimPast(text, other, |mark| - 1, |other|);
    assert (text + other)[..|text| + |other|] == text + other;
    assert mark == kept[..|mark|];
    assert text + mark == (text + kept)[..|text| + |mark|];
  }

  /** A heading that is no plan header is never stripped, and stays where the text before it ends. */
  lemma {:induction false} ForeignStays(text: string, other: string)
    requires Clean(text) && HEADING <= other && !(HEADER <= other)
    ensures text + HEADING <= Stripped(text + other)
    decreases |other|
  {
    if Index(text + other, HEADER) < 0 {
      MarkSurvives(text, other, HEADING);
    } else {
      var left := ForeignStep(text, other);
      ForeignStays(text, left);
    }
  }

  lemma NestedHeader(text: string, rest: string, next: nat) returns (after: string)
    requires next < |rest| && HEADER <= rest[next + 1..]
    ensures after == rest[next + 1 + |HEADER|..] && |after| < |rest|
    ensures text + rest[next + 1..] == text + "" + (HEADER + after)
  {
    after := rest[next + 1 + |HEADER|..];
    assert rest[next + 1..] == HEADER + after;
    assert text + "" == text;
  }

  lemma RestMovesUp(text: string, blank: string, rest: string, other: string)
    requires Clean(text)
    requires forall i :: 0 <= i < |blank| ==> blank[i] == '\n'
    requires Index(rest, NEXT_HEADING) >= 0 && other == rest[Index(rest, NEXT_HEADING) + 1..]
    ensures Stripped(text + blank + (HEADER + rest)) == Stripped(text + other)
  {
    StripSection(text, blank, rest);
  }

  /** The text that moves up when a section before a heading is stripped. */
  lemma MovesUp(text: string, blank: string, rest: string) returns (other: string)
    requires Clean(text)
    requires forall i :: 0 <= i < |blank| ==> blank[i] == '\n'
    requires Index(rest, NEXT_HEADING) >= 0
    ensures other == rest[Index(rest, NEXT_HEADING) + 1..] && HEADING <= other
    ensures Stripped(text + blank + (HEADER + rest)) == Stripped(text + other)
  {
    other := rest[Index(rest, NEXT_HEADING) + 1..];
    NextIsHeading(rest);
    RestMovesUp(text, blank, rest, other);
  }

  /**
    A stripped section leaves nothing behind iff it holds no heading but plan headers;
    otherwise the first other heading follows the text before the section.
   */
  lemma {:induction false} StripExactly(text: string, blank: string, rest: string)
    requires Clean(text)
    requires forall i :: 0 <= i < |blank| ==> blank[i] == '\n'
    ensures Stripped(text + blank + (HEADER + rest)) == text <==> OnlyPlanSections(rest)
    ensures !OnlyPlanSections(rest) ==> text + HEADING <= Stripped(text + blank + (HEADER + rest))
    decreases |rest|
  {
    var next := Index(rest, NEXT_HEADING);
    if next < 0 {
      StripSection(text, blank, rest);
    } else {
      var other := MovesUp(text, blank, rest);
      if HEADER <= other {
        var after := NestedHeader(text, rest, next);
        StripExactly(text, "", after);
      } else {
        ForeignStays(text, other);
      }
    }
  }

  lemma StrippedIsClean(body: string)
    ensures Clean(Stripped(body))
  {
    StripLeavesNoHeader(body);
  }

  /**
    Plan sections do not pile up: writing a second plan over a first gives what writing
    the second alone gives, exactly when the first section holds no heading but plan
    headers.
   */
  lemma WriteReplacesExactly(body: string, first: seq<SubTask>, second: seq<SubTask>)
    ensures Written(Written(body, first), second) == Written(body, second) <==> OnlyPlanSections(Section(first))
  {
    var clean := Stripped(body);
    StrippedIsClean(body);
    Regroup(clean + Gap(clean), HEADER, Section(first));
    StripExactly(clean, Gap(clean), Section(first));
    var again := Stripped(Written(body, first));
    Regroup(clean + Gap(clean), HEADER, Section(second));
    Regroup(again + Gap(again), HEADER, Section(second));
    SameLead(clean, again, HEADER + Section(second));
  }

  lemma SameLead(a: string, b: string, tail: string)
    requires Clean(a)
    ensures a + Gap(a) + tail == b + Gap(b) + tail <==> a == b
  {
    if a + Gap(a) + tail == b + Gap(b) + tail {
      assert a + Gap(a) == b + Gap(b) by {
        assert (a + Gap(a) + tail)[..|a + Gap(a)|] == a + Gap(a);
        assert (b + Gap(b) + tail)[..|b + Gap(b)|] == b + Gap(b);
      }
      if a == "" || b == "" {
      } else {
        assert (a + Gap(a))[..|a|] == a && (b + Gap(b))[..|b|] == b;
      }
    }
  }

  /** The strip joins a heading to the text before the section exactly when the section is followed by one. */
  lemma FollowingHeadingIsJoined(text: string, blank: string, rest: string)
    requires Clean(text)
    requires forall i :: 0 <= i < |blank| ==> blank[i] == '\n'
    ensures text + HEADING <= Stripped(text + blank + (HEADER + rest)) <==> !OnlyPlanSections(rest)
  {
    StripExactly(text, blank, rest);
  }

  // ---------- Rendered sub-tasks ----------

  lemma HeadingAt(s: string, i: nat)
    requires i <= |s| && NEXT_HEADING <= s[i..]
    ensures i + 4 <= |s| && s[i] == '\n' && s[i + 1] == '#' && s[i + 2] == '#' && s[i + 3] == ' '
  {
    assert forall k :: 0 <= k < 4 ==> s[i..][k] == NEXT_HEADING[k] == s[i + k];
  }

  lemma FoundInFirst(a: string, b: string, pattern: string, i: nat)
    requires i + |pattern| <= |a| && pattern <= (a + b)[i..]
    ensures Index(a, pattern) >= 0
  {
    assert (a + b)[i..][..|pattern|] == a[i..][..|pattern|];
    IndexIsFirst(a, pattern, i);
  }

  lemma FoundInSecond(a: string, b: string, pattern: string, i: nat)
    requires |a| <= i <= |a + b| && pattern <= (a + b)[i..]
    ensures Index(b, pattern) >= 0
  {
    assert (a + b)[i..] == b[i - |a|..];
    IndexIsFirst(b, pattern, i - |a|);
  }

  /** Text that ends its line, and a line that does not start with '#': no heading begins where they meet. */
  lemma NoHeadingBetween(a: string, b: string)
    requires Index(a, NEXT_HEADING) < 0 && Index(b, NEXT_HEADING) < 0
    requires a != "" ==> a[|a| - 1] == '\n'
    requires b != "" ==> b[0] != '#'
    ensures Index(a + b, NEXT_HEADING) < 0
  {
    if Index(a + b, NEXT_HEADING) >= 0 {
      var i: nat := Index(a + b, NEXT_HEADING);
      HeadingAt(a + b, i);
      if i >= |a| {
        FoundInSecond(a, b, NEXT_HEADING, i);
      } else if i + 4 <= |a| {
        FoundInFirst(a, b, NEXT_HEADING, i);
      }
    }
  }

  lemma TaskLineEnds(number: nat, task: SubTask)
    ensures var line := TaskLine(number, task);
      line != "" && line[0] != '#' && line[|line| - 1] == '\n'
  {
    assert TaskLine(number, task)[0] == Dec(number)[0];
  }

  lemma {:induction false} TaskLinesHoldNoHeading(tasks: seq<SubTask>)
    requires forall k :: 0 <= k < |tasks| ==> Index(TaskLine(k + 1, tasks[k]), NEXT_HEADING) < 0
    ensures var lines := TaskLines(tasks);
      Index(lines, NEXT_HEADING) < 0 && (lines != "" ==> lines[0] != '#' && lines[|lines| - 1] == '\n')
  {
    if tasks == [] {
    } else {
      var n := |tasks| - 1;
      TaskLinesHoldNoHeading(tasks[..n]);
      TaskLineEnds(n + 1, tasks[n]);
      NoHeadingBetween(TaskLines(tasks[..n]), TaskLine(n + 1, tasks[n]));
    }
  }

  /** When no rendered sub-task holds a newline followed by a level-2 heading, a later plan replaces the section. */
  lemma RenderedTasksReplace(body: string, first: seq<SubTask>, second: seq<SubTask>)
    requires forall k :: 0 <= k < |first| ==> Index(TaskLine(k + 1, first[k]), NEXT_HEADING) < 0
    ensures OnlyPlanSections(Section(first))
    ensures Written(Written(body, first), second) == Written(body, second)
  {
    TaskLinesHoldNoHeading(first);
    NoHeadingBetween("\n\n", TaskLines(first));
    WriteReplacesExactly(body, first, second);
  }

  /** No line but the first starts with '#'. */
  ghost predicate NoHeadingLine(s: string) {
    forall i :: 0 <= i < |s| - 1 && s[i] == '\n' ==> s[i + 1] != '#'
  }

  /** Sub-tasks that render without a line that starts with '#'. */
  ghost predicate Plain(tasks: seq<SubTask>) {
    forall k :: 0 <= k < |tasks| ==> NoHeadingLine(TaskLine(k + 1, tasks[k]))
  }

  lemma {:induction false} PlainLines(tasks: seq<SubTask>)
    requires Plain(tasks)
    ensures var lines := TaskLines(tasks);
      NoHeadingLine(lines) && (lines != "" ==> lines[0] != '#' && lines[|lines| - 1] == '\n')
  {
    if tasks == [] {
    } else {
      var n := |tasks| - 1;
      PlainLines(tasks[..n]);
      TaskLineEnds(n + 1, tasks[n]);
    }
  }

  lemma {:induction false} JoinedIsOneLine(ids: seq<string>)
    requires forall k :: 0 <= k < |ids| ==> OneLine(ids[k])
    ensures OneLine(JoinIDs(ids))
  {
    if |ids| > 1 {
      JoinedIsOneLine(ids[..|ids| - 1]);
    }
  }

  lemma PlainSection(tasks: seq<SubTask>)
    requires Plain(tasks)
    ensures OnlyPlanSections(Section(tasks))
  {
    PlainLines(tasks);
    var i := Index(Section(tasks), NEXT_HEADING);
    if i >= 0 {
      HeadingAt(Section(tasks), i);
    }
  }

  /** Stripping a written body gives the body that the plan was written over, stripped. */
  lemma WrittenStrips(body: string, tasks: seq<SubTask>)
    requires Plain(tasks)
    ensures Stripped(Written(body, tasks)) == Stripped(body)
  {
    var clean := Stripped(body);
    StrippedIsClean(body);
    PlainSection(tasks);
    Regroup(clean + Gap(clean), HEADER, Section(tasks));
    StripExactly(clean, Gap(clean), Section(tasks));
  }
}

/** A written plan section leaves the parsed checklist alone. */
module PlanChecklist {
  import opened State
  import opened Lines
  import opened Checklist
  import opened PlanSections

  lemma {:induction false} SplitConcat(a: string, b: string)
    ensures Split(a + "\n" + b) == Split(a) + Split(b)
  {
    var s := a + "\n" + b;
    if a == [] {
      assert s[1..] == b;
    } else {
      assert s[1..] == a[1..] + "\n" + b;
      SplitConcat(a[1..], b);
      PrependLine(a[0], Split(a[1..]), Split(b));
    }
  }

  /** How a character before split text changes its lines. */
  function Prepended(c: char, lines: seq<string>): seq<string>
    requires |lines| > 0
  {
    if c == '\n' then [[]] + lines else [[c] + lines[0]] + lines[1..]
  }

  lemma PrependLine(c: char, lines: seq<string>, more: seq<string>)
    requires |lines| > 0
    ensures Prepended(c, lines + more) == Prepended(c, lines) + more
  {
    assert (lines + more)[1..] == lines[1..] + more;
  }

  /** A heading line of a split text begins after a newline, or at the start. */
  lemma {:induction false} NoHeadingLines(s: string)
    requires NoHeadingLine(s)
    ensures forall k :: 1 <= k < |Split(s)| && Split(s)[k] != [] ==> Split(s)[k][0] != '#'
    ensures s != [] && s[0] != '#' && Split(s)[0] != [] ==> Split(s)[0][0] != '#'
  {
    if s == [] {
    } else {
      NoHeadingLines(s[1..]);
    }
  }

  lemma {:induction false} PrefixItems(md: Markdown, base: seq<string>, more: seq<string>, n: nat)
    requires n <= |base|
    ensures SectionAt(md, base + more, n) == SectionAt(md, base, n)
    ensures Items(md, base + more, n) == Items(md, base, n)
  {
    if n == 0 {
    } else {
      PrefixItems(md, base, more, n - 1);
    }
  }

  ghost predicate KnowsPlanHeader(md: Markdown) {
    md.heading(HEADER) != "" && md.isPlan(md.heading(HEADER))
  }

  /** Below the plan header, as far as no other heading stands, nothing is parsed. */
  lemma {:induction false} NothingBelow(md: Markdown, lines: seq<string>, h: nat, n: nat)
    requires h < n <= |lines| && lines[h] == HEADER && KnowsPlanHeader(md)
    requires forall k :: h < k < |lines| ==> Heading(md, lines[k]) == ""
    ensures SectionAt(md, lines, n) == md.heading(HEADER)
    ensures Items(md, lines, n) == Items(md, lines, h)
  {
    if n > h + 1 {
      NothingBelow(md, lines, h, n - 1);
    }
  }

  function BlankLine(clean: string): seq<string> {
    if clean == "" then [] else [""]
  }

  lemma TwoBreaks(clean: string, tail: string)
    ensures Split(clean + "\n\n" + tail) == Split(clean) + [""] + Split(tail)
  {
    var rest := "" + "\n" + tail;
    SplitConcat("", tail);
    SplitConcat(clean, rest);
    assert clean + "\n\n" + tail == clean + "\n" + rest;
    assert Split("") == [""];
  }

  lemma BodyLines(clean: string, tail: string)
    ensures Split(clean + Gap(clean) + tail) == Split(clean) + BlankLine(clean) + Split(tail)
  {
    if clean == "" {
      SplitConcat(clean, tail);
      assert Split(clean) + BlankLine(clean) == Split(clean);
    } else {
      TwoBreaks(clean, tail);
    }
  }

  lemma SectionLines(lines: string)
    ensures Split(HEADER + ("\n\n" + lines)) == [HEADER, ""] + Split(lines)
  {
    HeaderShape();
    SplitHead("", lines);
    assert "" + "\n" + lines == "\n" + lines;
    SplitHead(HEADER, "\n" + lines);
    assert HEADER + "\n" + ("\n" + lines) == HEADER + ("\n\n" + lines);
    assert [HEADER] + ([""] + Split(lines)) == [HEADER, ""] + Split(lines);
  }

  /** The lines of a written body: those of the clean body, perhaps a blank one, the header, and the section. */
  lemma WrittenLines(body: string, tasks: seq<SubTask>)
    ensures Split(Written(body, tasks)) ==
      Split(Stripped(body)) + BlankLine(Stripped(body)) + ([HEADER, ""] + Split(TaskLines(tasks)))
  {
    var clean := Stripped(body);
    Regroup(clean + Gap(clean), HEADER, Section(tasks));
    BodyLines(clean, HEADER + Section(tasks));
    SectionLines(TaskLines(tasks));
  }

  function Below(tasks: seq<SubTask>): seq<string> {
    [HEADER, ""] + Split(TaskLines(tasks))
  }

  lemma NoHeadingBelow(md: Markdown, tasks: seq<SubTask>, k: nat)
    requires Plain(tasks)
    requires 0 < k < |Below(tasks)|
    ensures Heading(md, Below(tasks)[k]) == ""
  {
    PlainLines(tasks);
    NoHeadingLines(TaskLines(tasks));
  }

  lemma BelowAddsNothing(md: Markdown, lead: seq<string>, tasks: seq<SubTask>)
    requires KnowsPlanHeader(md) && Plain(tasks)
    ensures var lines := lead + Below(tasks);
      Items(md, lines, |lines|) == Items(md, lead, |lead|)
  {
    var lines := lead + Below(tasks);
    forall k | |lead| < k < |lines| ensures Heading(md, lines[k]) == "" {
      assert lines[k] == Below(tasks)[k - |lead|];
      NoHeadingBelow(md, tasks, k - |lead|);
    }
    assert lines[|lead|] == HEADER;
    NothingBelow(md, lines, |lead|, |lines|);
    PrefixItems(md, lead, Below(tasks), |lead|);
  }

  lemma BlankAddsNothing(md: Markdown, base: seq<string>, clean: string)
    ensures var lines := base + BlankLine(clean);
      Items(md, lines, |lines|) == Items(md, base, |base|)
  {
    PrefixItems(md, base, BlankLine(clean), |base|);
  }

  /** A plan of plain sub-tasks adds nothing to the checklist, and renumbers nothing. */
  lemma PlanAddsNoItems(md: Markdown, body: string, tasks: seq<SubTask>)
    requires KnowsPlanHeader(md) && Plain(tasks)
    ensures Parsed(md, Written(body, tasks)) == Parsed(md, Stripped(body))
  {
    var base, blank := Split(Stripped(body)), BlankLine(Stripped(body));
    WrittenLines(body, tasks);
    BelowAddsNothing(md, base + blank, tasks);
    BlankAddsNothing(md, base, Stripped(body));
  }

  lemma {:induction false} BlankTail(md: Markdown, base: seq<string>, n: nat)
    requires |base| <= n && |base| > 0
    ensures Items(md, base + Blanks(n - |base|), n) == Items(md, base, |base|)
    decreases n
  {
    var lines := base + Blanks(n - |base|);
    if n == |base| {
      assert lines == base;
    } else {
      BlankTail(md, base, n - 1);
      var less := base + Blanks(n - 1 - |base|);
      assert lines == less + [""];
      PrefixItems(md, less, [""], n - 1);
    }
  }

  function Blanks(n: nat): seq<string> {
    seq(n, _ => "")
  }

  lemma {:induction false} TrimmedLines(body: string) returns (n: nat)
    ensures Split(body) == Split(TrimNewlines(body)) + Blanks(n)
  {
    if body != [] && body[|body| - 1] == '\n' {
      var shorter := body[..|body| - 1];
      var m := TrimmedLines(shorter);
      SplitConcat(shorter, "");
      assert shorter + "\n" + "" == body;
      assert Split("") == [""];
      n := m + 1;
      assert Blanks(m) + [""] == Blanks(n);
    } else {
      n := 0;
    }
  }

  lemma TrimKeepsItems(md: Markdown, body: string)
    ensures Parsed(md, TrimNewlines(body)) == Parsed(md, body)
  {
    var n := TrimmedLines(body);
    var base := Split(TrimNewlines(body));
    var lines := base + Blanks(n);
    assert lines == Split(body) && |lines| == |base| + n;
    BlankTail(md, base, |lines|);
  }

  /** Stripping a body without plan sections keeps its checklist. */
  lemma StripKeepsItems(md: Markdown, body: string)
    requires Index(body, HEADER) < 0
    ensures Parsed(md, Stripped(body)) == Parsed(md, body)
  {
    TrimKeepsItems(md, body);
    StripTwice(body);
  }
}

/**
  What stripping does to the line numbers of a body, and with them to the ids of the
  checklist items: exactly when every id survives the strip.
 */
module StripShifts {
  import opened Strings
  import opened Lines
  import opened Checklist
  import opened ChecklistSync
  import opened PlanSections
  import opened PlanChecklist

  function IDs(items: seq<Item>): seq<string> {
    seq(|items|, i requires 0 <= i < |items| => items[i].id)
  }

  /** Ids with their marks: what a strip that moves no item preserves. */
  function Boxes(items: seq<Item>): seq<(string, bool)> {
    seq(|items|, i requires 0 <= i < |items| => (items[i].id, items[i].checked))
  }

  function LineSum(items: seq<Item>): nat {
    if items == [] then 0 else LineSum(items[..|items| - 1]) + items[|items| - 1].line + 1
  }

  lemma SumMore(items: seq<Item>, item: Item)
    ensures LineSum(items + [item]) == LineSum(items) + item.line + 1
  {
    assert (items + [item])[..|items|] == items;
  }

  /** Items are named after their lines, so equal ids mean equal line sums. */
  lemma {:induction false} SameIDsSameSum(a: seq<Item>, b: seq<Item>)
    requires IDs(a) == IDs(b)
    requires forall k :: 0 <= k < |a| ==> a[k].id == ItemID(a[k].line)
    requires forall k :: 0 <= k < |b| ==> b[k].id == ItemID(b[k].line)
    ensures LineSum(a) == LineSum(b)
  {
    assert |a| == |IDs(a)| == |IDs(b)| == |b|;
    if a != [] {
      var n := |a| - 1;
      assert IDs(a[..n]) == IDs(a)[..n] && IDs(b[..n]) == IDs(b)[..n];
      SameIDsSameSum(a[..n], b[..n]);
      assert IDs(a)[n] == IDs(b)[n];
      assert a[n].id[5..] == Dec(a[n].line) && b[n].id[5..] == Dec(b[n].line);
      DecInjective(a[n].line, b[n].line);
    }
  }

  lemma BoxesHoldIDs(a: seq<Item>, b: seq<Item>)
    requires Boxes(a) == Boxes(b)
    ensures IDs(a) == IDs(b)
  {
    assert |a| == |Boxes(a)| == |Boxes(b)| == |b|;
    forall k | 0 <= k < |a| ensures IDs(a)[k] == IDs(b)[k] {
      assert Boxes(a)[k] == Boxes(b)[k];
    }
  }

  // ---------- Lines that move up ----------

  /** The numbers, from 1, of the flagged positions among the first n, added up. */
  function Total(flags: seq<bool>, n: nat): nat
    requires n <= |flags|
  {
    if n == 0 then 0 else Total(flags, n - 1) + if flags[n - 1] then n else 0
  }

  predicate Flagged(flags: seq<bool>, from: nat, to: nat) {
    exists i :: from <= i < to && i < |flags| && flags[i]
  }

  lemma {:induction false} TotalGrows(flags: seq<bool>, from: nat, to: nat)
    requires from <= to <= |flags|
    ensures Total(flags, from) <= Total(flags, to)
    ensures Flagged(flags, from, to) ==> Total(flags, from) < Total(flags, to)
  {
    if from < to {
      TotalGrows(flags, from, to - 1);
      assert Flagged(flags, from, to) <==> Flagged(flags, from, to - 1) || flags[to - 1];
    }
  }

  /**
    Up to position m of `now` and position n of `was`, which agree before the cut: the
    total has not grown, it has shrunk when a flag moved, and without flags behind the
    cut none has appeared.
   */
  ghost predicate NotAhead(now: seq<bool>, m: nat, was: seq<bool>, n: nat, cut: nat)
    requires m <= |now| && n <= |was|
  {
    && Total(now, m) <= Total(was, n)
    && (Flagged(was, cut, n) ==> Total(now, m) < Total(was, n) || (m == n && Flagged(now, cut, m)))
    && (!Flagged(was, cut, n) ==> !Flagged(now, cut, m))
  }

  lemma NotAheadStep(now: seq<bool>, m: nat, was: seq<bool>, n: nat, cut: nat)
    requires cut <= m < |now| && m <= n < |was|
    requires NotAhead(now, m, was, n, cut)
    requires now[m] ==> was[n]
    ensures NotAhead(now, m + 1, was, n + 1, cut)
  {
    assert Flagged(now, cut, m + 1) <==> Flagged(now, cut, m) || now[m];
    assert Flagged(was, cut, n + 1) <==> Flagged(was, cut, n) || was[n];
  }

  ghost predicate NoneAppears(now: seq<bool>, cut: nat, was: seq<bool>, i: nat)
    requires cut <= i && |now| - cut == |was| - i
  {
    forall j :: cut <= j < |now| && now[j] ==> was[j + (i - cut)]
  }

  /** The flags from position i on move up to the cut; some may be lost. */
  lemma {:induction false} MoveUp(now: seq<bool>, cut: nat, was: seq<bool>, i: nat, m: nat, n: nat)
    requires cut <= m <= |now| && cut <= i <= n && |now| - cut == |was| - i && m - cut == n - i
    requires Total(now, cut) == Total(was, cut) && NoneAppears(now, cut, was, i)
    ensures NotAhead(now, m, was, n, cut)
  {
    if m == cut {
      TotalGrows(was, cut, i);
    } else {
      MoveUp(now, cut, was, i, m - 1, n - 1);
      assert now[m - 1] ==> was[m - 1 + (i - cut)];
      NotAheadStep(now, m - 1, was, n - 1, cut);
    }
  }

  lemma FlagsSettle(now: seq<bool>, cut: nat, was: seq<bool>)
    requires cut <= |now| <= |was| && Total(now, cut) == Total(was, cut)
    requires NoneAppears(now, cut, was, cut + (|was| - |now|))
    ensures NotAhead(now, |now|, was, |was|, cut)
  {
    MoveUp(now, cut, was, cut + (|was| - |now|), |now|, |was|);
  }

  // ---------- Items that move up ----------

  /** Which lines hold an item that counts. */
  function Counted(md: Markdown, lines: seq<string>): (flags: seq<bool>)
    ensures |flags| == |lines|
  {
    seq(|lines|, i requires 0 <= i < |lines| => Counts(md, lines, i))
  }

  lemma {:induction false} ItemsTotal(md: Markdown, lines: seq<string>, n: nat)
    requires n <= |lines|
    ensures LineSum(Items(md, lines, n)) == Total(Counted(md, lines), n)
  {
    if n == 0 {
    } else {
      ItemsTotal(md, lines, n - 1);
      if Counts(md, lines, n - 1) {
        SumMore(Items(md, lines, n - 1), ItemAt(md, lines, n - 1));
      }
    }
  }

  lemma {:induction false} NoMoreItems(md: Markdown, lines: seq<string>, from: nat, to: nat)
    requires from <= to <= |lines| && !Flagged(Counted(md, lines), from, to)
    ensures Items(md, lines, from) == Items(md, lines, to)
  {
    if from < to {
      assert !Counted(md, lines)[to - 1];
      NoMoreItems(md, lines, from, to - 1);
    }
  }

  /** From line i on, `was` does not depend on the section before it, or that section is no plan. */
  predicate Anchored(md: Markdown, was: seq<string>, i: nat)
    requires i <= |was|
  {
    i == |was| || Heading(md, was[i]) != "" || !md.isPlan(SectionAt(md, was, i))
  }

  /** The lines of `was` from line i on are those of `now` from the cut on. */
  predicate MovedTo(now: seq<string>, cut: nat, was: seq<string>, i: nat) {
    cut <= i <= |was| && cut <= |now| && now[cut..] == was[i..]
  }

  lemma MovedLine(now: seq<string>, cut: nat, was: seq<string>, i: nat, n: nat)
    requires MovedTo(now, cut, was, i) && (cut + n < |now| || i + n < |was|)
    ensures cut + n < |now| && i + n < |was| && now[cut + n] == was[i + n]
  {
    assert now[cut..][n] == was[i..][n];
  }

  /** Either the sections agree, or the earlier one is still in force on the moved lines. */
  lemma {:induction false} SectionsMove(md: Markdown, now: seq<string>, cut: nat, was: seq<string>, i: nat, n: nat)
    requires MovedTo(now, cut, was, i) && cut + n <= |now| && i + n <= |was|
    ensures var s, t := SectionAt(md, now, cut + n), SectionAt(md, was, i + n);
      s == t || (t == SectionAt(md, was, i) && (n > 0 ==> Heading(md, was[i]) == ""))
  {
    if n == 0 {
    } else {
      SectionsMove(md, now, cut, was, i, n - 1);
      MovedLine(now, cut, was, i, n - 1);
    }
  }

  /** A line that counts after moving up counted before. */
  lemma CountsMove(md: Markdown, now: seq<string>, cut: nat, was: seq<string>, i: nat, n: nat)
    requires MovedTo(now, cut, was, i) && cut + n < |now| && Anchored(md, was, i)
    requires Counts(md, now, cut + n)
    ensures i + n < |was| && Counts(md, was, i + n)
  {
    MovedLine(now, cut, was, i, n);
    SectionsMove(md, now, cut, was, i, n);
  }

  /** Some line in the range holds an item that counts. */
  predicate Late(md: Markdown, lines: seq<string>, from: nat) {
    Flagged(Counted(md, lines), from, |lines|)
  }

  /** Behind the cut, a line that counts counted before. */
  predicate NothingAppears(md: Markdown, now: seq<string>, cut: nat, was: seq<string>) {
    && cut <= |now| <= |was|
    && forall j :: cut <= j < |now| && Counts(md, now, j) ==> Counts(md, was, j + (|was| - |now|))
  }

  lemma AnchoredLines(md: Markdown, now: seq<string>, cut: nat, was: seq<string>, i: nat)
    requires MovedTo(now, cut, was, i) && Anchored(md, was, i)
    ensures NothingAppears(md, now, cut, was)
  {
    assert |now[cut..]| == |was[i..]|;
    forall j: nat | cut <= j < |now| && Counts(md, now, j) ensures Counts(md, was, j + (|was| - |now|)) {
      CountsMove(md, now, cut, was, i, j - cut);
    }
  }

  lemma FlagsMove(md: Markdown, now: seq<string>, cut: nat, was: seq<string>)
    requires NothingAppears(md, now, cut, was)
    ensures NoneAppears(Counted(md, now), cut, Counted(md, was), cut + (|was| - |now|))
  {
    var a, b := Counted(md, now), Counted(md, was);
    forall j | cut <= j < |now| && a[j] ensures b[j + (|was| - |now|)] {
      assert Counts(md, now, j);
    }
  }

  lemma ItemsSettle(md: Markdown, now: seq<string>, cut: nat, was: seq<string>)
    requires NothingAppears(md, now, cut, was)
    requires LineSum(Items(md, now, cut)) == LineSum(Items(md, was, cut))
    ensures NotAhead(Counted(md, now), |now|, Counted(md, was), |was|, cut)
  {
    ItemsTotal(md, now, cut);
    ItemsTotal(md, was, cut);
    FlagsMove(md, now, cut, was);
    FlagsSettle(Counted(md, now), cut, Counted(md, was));
  }

  /** What moving up does to the line sum. */
  lemma ItemsMove(md: Markdown, now: seq<string>, cut: nat, was: seq<string>)
    requires NothingAppears(md, now, cut, was)
    requires LineSum(Items(md, now, cut)) == LineSum(Items(md, was, cut))
    ensures var a, b := LineSum(Items(md, now, |now|)), LineSum(Items(md, was, |was|));
      && a <= b
      && (Late(md, was, cut) ==> a < b || (|now| == |was| && Late(md, now, cut)))
    ensures !Late(md, was, cut) ==> !Late(md, now, cut)
  {
    ItemsSettle(md, now, cut, was);
    ItemsTotal(md, now, |now|);
    ItemsTotal(md, was, |was|);
  }

  // ---------- Where the strip cuts ----------

  function Init(s: string): seq<string> {
    Split(s)[..|Split(s)| - 1]
  }

  function LastLine(s: string): string {
    Split(s)[|Split(s)| - 1]
  }

  /** Lines of which the last goes on with the first of some more. */
  function Glued(lines: seq<string>, more: seq<string>): seq<string>
    requires |lines| > 0 && |more| > 0
  {
    if |lines| == 1 then [lines[0] + more[0]] + more[1..] else [lines[0]] + Glued(lines[1..], more)
  }

  lemma {:induction false} GluedShape(lines: seq<string>, more: seq<string>)
    requires |lines| > 0 && |more| > 0
    ensures var n := |lines| - 1;
      Glued(lines, more) == lines[..n] + [lines[n] + more[0]] + more[1..]
  {
    if |lines| > 1 {
      GluedShape(lines[1..], more);
    }
  }

  lemma PrependGlued(c: char, lines: seq<string>, more: seq<string>)
    requires |lines| > 0 && |more| > 0
    ensures Prepended(c, Glued(lines, more)) == Glued(Prepended(c, lines), more)
  {
    if c == '\n' {
      assert ([[]] + lines)[1..] == lines;
    } else if |lines| == 1 {
      assert [c] + (lines[0] + more[0]) == ([c] + lines[0]) + more[0];
    } else {
      assert ([[c] + lines[0]] + lines[1..])[1..] == lines[1..];
    }
  }

  /** Appending text continues the last line. */
  lemma {:induction false} SplitAppend(a: string, b: string)
    ensures Split(a + b) == Glued(Split(a), Split(b))
    ensures Split(a + b) == Init(a) + [LastLine(a) + Split(b)[0]] + Split(b)[1..]
  {
    GluedShape(Split(a), Split(b));
    if a == [] {
      assert a + b == b;
      assert [] + Split(b)[0] == Split(b)[0];
    } else {
      assert (a + b)[1..] == a[1..] + b;
      SplitAppend(a[1..], b);
      PrependGlued(a[0], Split(a[1..]), Split(b));
    }
  }

  /** An item line without its text. */
  predicate EmptyBox(line: string) {
    |line| == 6 && IsItem(line + "x")
  }

  /** Text that opens with the end of a line or with a heading mark. */
  predicate Breaks(s: string) {
    s == "" || s[0] == '\n' || s[0] == '#'
  }

  /** What follows the text on its last line does not decide whether that line is an item. */
  lemma BoxAgrees(line: string, more: string)
    requires !EmptyBox(line) && (more == "" || more[0] == '#')
    ensures IsItem(line + more) <==> IsItem(line)
    ensures IsItem(line) ==> (IsChecked(line + more) <==> IsChecked(line))
    ensures line != "" ==> (line + more)[0] == line[0]
  {
    var whole := line + more;
    if |line| < 6 && more != "" {
      assert whole[|line|] == '#';
    } else if |line| == 6 {
      assert forall k :: 0 <= k < 6 ==> whole[k] == line[k] == (line + "x")[k];
    }
  }

  lemma FirstLineBreaks(s: string)
    requires Breaks(s)
    ensures Split(s)[0] == "" || Split(s)[0][0] == '#'
  {
  }

  lemma CutLine(md: Markdown, init: seq<string>, line: string, more: string)
    requires !EmptyBox(line) && (more == "" || more[0] == '#')
    ensures Boxes(Items(md, init + [line + more], |init| + 1)) == Boxes(Items(md, init + [line], |init| + 1))
    ensures LineSum(Items(md, init + [line + more], |init| + 1)) == LineSum(Items(md, init + [line], |init| + 1))
  {
    var n := |init|;
    var a, b := init + [line + more], init + [line];
    BoxAgrees(line, more);
    PrefixItems(md, init, [line + more], n);
    PrefixItems(md, init, [line], n);
    assert Counts(md, a, n) <==> Counts(md, b, n);
    if Counts(md, a, n) {
      SumMore(Items(md, a, n), ItemAt(md, a, n));
      SumMore(Items(md, b, n), ItemAt(md, b, n));
    }
  }

  /** Up to its last line, the text parses to the same boxes whatever follows it. */
  lemma CutAgrees(md: Markdown, text: string, more: string)
    requires !EmptyBox(LastLine(text)) && Breaks(more)
    ensures |Split(text)| <= |Split(text + more)|
    ensures Boxes(Items(md, Split(text + more), |Split(text)|)) == Boxes(Parsed(md, text))
    ensures LineSum(Items(md, Split(text + more), |Split(text)|)) == LineSum(Parsed(md, text))
  {
    SplitAppend(text, more);
    FirstLineBreaks(more);
    var n := |Split(text)|;
    var whole := Init(text) + [LastLine(text) + Split(more)[0]];
    assert Split(text) == Init(text) + [LastLine(text)];
    CutLine(md, Init(text), LastLine(text), Split(more)[0]);
    PrefixItems(md, whole, Split(more)[1..], n);
  }

  /** What one cut leaves: the text goes on with other text, and the lines from line i on move up. */
  ghost predicate CutLeaves(md: Markdown, text: string, before: string, after: string) {
    var cut, was, now := |Split(text)|, Split(text + before), Split(text + after);
    var items, left := Parsed(md, text + before), Parsed(md, text + after);
    && LineSum(left) <= LineSum(items)
    && (Late(md, was, cut) ==> LineSum(left) < LineSum(items) || (|now| == |was| && Late(md, now, cut)))
    && (!Late(md, was, cut) ==> !Late(md, now, cut) && Boxes(left) == Boxes(items))
  }

  /** The cut brings no item out: none appears behind it, and up to it the boxes are the same. */
  ghost predicate BringsOutNothing(md: Markdown, text: string, before: string, after: string) {
    var cut, was, now := |Split(text)|, Split(text + before), Split(text + after);
    NothingAppears(md, now, cut, was) && Boxes(Items(md, now, cut)) == Boxes(Items(md, was, cut))
  }

  lemma SameBoxesSameSum(md: Markdown, a: seq<string>, b: seq<string>, n: nat)
    requires n <= |a| && n <= |b| && Boxes(Items(md, a, n)) == Boxes(Items(md, b, n))
    ensures LineSum(Items(md, a, n)) == LineSum(Items(md, b, n))
  {
    BoxesHoldIDs(Items(md, a, n), Items(md, b, n));
    ItemsAreLines(md, a, n);
    ItemsAreLines(md, b, n);
    SameIDsSameSum(Items(md, a, n), Items(md, b, n));
  }

  lemma CutStep(md: Markdown, text: string, before: string, after: string)
    requires BringsOutNothing(md, text, before, after)
    ensures CutLeaves(md, text, before, after)
  {
    var was, now, cut := Split(text + before), Split(text + after), |Split(text)|;
    SameBoxesSameSum(md, now, was, cut);
    ItemsMove(md, now, cut, was);
    if !Late(md, was, cut) {
      NoMoreItems(md, was, cut, |was|);
      NoMoreItems(md, now, cut, |now|);
    }
  }

  /** When the text ends in no empty box, and the lines that move up depend on no plan section. */
  lemma AnchoredCut(md: Markdown, text: string, before: string, after: string, i: nat)
    requires !EmptyBox(LastLine(text)) && Breaks(before) && Breaks(after)
    requires MovedTo(Split(text + after), |Split(text)|, Split(text + before), i)
    requires Anchored(md, Split(text + before), i)
    ensures BringsOutNothing(md, text, before, after)
  {
    CutAgrees(md, text, before);
    CutAgrees(md, text, after);
    AnchoredLines(md, Split(text + after), |Split(text)|, Split(text + before), i);
  }

  // ---------- Plan sections ----------

  ghost predicate AllNewlines(blank: string) {
    forall i :: 0 <= i < |blank| ==> blank[i] == '\n'
  }

  /** The body up to the heading that follows its plan section, as lines. */
  lemma FrontLines(text: string, before: string, front: string, other: string) returns (i: nat)
    requires before == front + "\n" + other
    ensures i >= |Split(text)| && i + |Split(other)| == |Split(text + before)|
    ensures Split(text + before)[i..] == Split(other)
  {
    assert text + before == (text + front) + "\n" + other;
    SplitConcat(text + front, other);
    SplitAppend(text, front);
    i := |Split(text + front)|;
  }

  /** Cut before another heading: the lines after that heading move up. */
  lemma ForeignMoves(text: string, before: string, front: string, other: string) returns (i: nat)
    requires before == front + "\n" + other
    ensures |Split(text)| < i && MovedTo(Split(text + other), |Split(text)|, Split(text + before), i)
    ensures Split(text + before)[i - 1] == Split(other)[0]
    ensures |Split(text)| <= |Split(text + other)| < |Split(text + before)|
  {
    var was, now, cut := Split(text + before), Split(text + other), |Split(text)|;
    var j := FrontLines(text, before, front, other);
    SplitAppend(text, other);
    assert was[j] == was[j..][0] == Split(other)[0];
    assert was[j + 1..] == was[j..][1..];
    assert now[cut..] == Split(other)[1..];
    i := j + 1;
  }

  /** Cut before another plan header: that header moves up. */
  lemma AdjacentMoves(text: string, before: string, front: string, other: string) returns (i: nat)
    requires before == front + "\n" + other
    ensures i < |Split(text + before)| && Split(text + before)[i] == Split(other)[0]
    ensures MovedTo(Split(text + ("\n" + other)), |Split(text)|, Split(text + before), i)
  {
    var was, now, cut := Split(text + before), Split(text + ("\n" + other)), |Split(text)|;
    i := FrontLines(text, before, front, other);
    assert text + ("\n" + other) == text + "\n" + other;
    SplitConcat(text, other);
    assert was[i] == was[i..][0] == Split(other)[0];
    assert now[cut..] == Split(other);
  }

  // ---------- The whole strip ----------

  /** The text before the first plan section, up to its last line that is not blank. */
  function Lead(body: string): string
    requires Index(body, HEADER) >= 0
  {
    TrimNewlines(body[..Index(body, HEADER)])
  }

  /** What follows the first plan header. */
  function Rest(body: string): string
    requires Index(body, HEADER) >= 0
  {
    body[Index(body, HEADER) + |HEADER|..]
  }

  lemma {:induction false} TrimsNewlines(s: string)
    ensures AllNewlines(s[|TrimNewlines(s)|..])
  {
    if s != [] && s[|s| - 1] == '\n' {
      TrimsNewlines(s[..|s| - 1]);
      var n := |TrimNewlines(s)|;
      assert s[n..] == s[..|s| - 1][n..] + "\n";
    } else {
      assert s[|s|..] == [];
    }
  }

  lemma PartsAt(s: string, mark: string, i: nat)
    requires i + |mark| <= |s| && mark <= s[i..]
    ensures s == s[..i] + (mark + s[i + |mark|..])
  {
    assert s[i..][..|mark|] == mark;
    assert s[i..][|mark|..] == s[i + |mark|..];
    assert s[i..] == mark + s[i + |mark|..];
  }

  /** Nothing before the first occurrence holds another. */
  lemma NoneBefore(s: string, mark: string, n: nat)
    requires 0 <= Index(s, mark) && n <= Index(s, mark) && mark != ""
    ensures Index(s[..n], mark) < 0
  {
    var j := Index(s[..n], mark);
    if j >= 0 {
      assert s[..n][j..] <= s[j..];
      IndexIsFirst(s, mark, j);
    }
  }

  lemma BodyParts(body: string) returns (blank: string)
    requires Index(body, HEADER) >= 0
    ensures body == Lead(body) + blank + (HEADER + Rest(body))
    ensures Clean(Lead(body)) && AllNewlines(blank)
  {
    var idx := Index(body, HEADER);
    var text := Lead(body);
    TrimsNewlines(body[..idx]);
    blank := body[..idx][|text|..];
    assert body[..idx] == text + blank;
    PartsAt(body, HEADER, idx);
    NoneBefore(body, HEADER, |text|);
    assert text == body[..idx][..|text|] == body[..|text|];
  }

  /** What the strip does to the parsed items, and when it leaves all boxes in place. */
  ghost predicate Settled(md: Markdown, body: string)
    requires Index(body, HEADER) >= 0
  {
    var was, items, left := Split(body), Parsed(md, body), Parsed(md, Stripped(body));
    && LineSum(left) <= LineSum(items)
    && (Late(md, was, |Split(Lead(body))|) ==> LineSum(left) < LineSum(items))
    && (!Late(md, was, |Split(Lead(body))|) ==> Boxes(left) == Boxes(items))
  }

  lemma LateFurther(md: Markdown, lines: seq<string>, cut: nat, further: nat)
    requires cut <= further && Late(md, lines, further)
    ensures Late(md, lines, cut)
  {
  }

  /** After one cut without plan sections left. */
  lemma SettledAtOnce(md: Markdown, body: string, before: string, after: string)
    requires Index(body, HEADER) >= 0 && body == Lead(body) + before
    requires CutLeaves(md, Lead(body), before, after)
    requires |Split(Lead(body) + after)| == |Split(body)| ==>
      !Late(md, Split(Lead(body) + after), |Split(Lead(body))|)
    requires Parsed(md, Stripped(body)) == Parsed(md, Lead(body) + after)
    ensures Settled(md, body)
  {
  }

  /** After one cut with more to come. */
  lemma SettledLater(md: Markdown, body: string, before: string, after: string)
    requires Index(body, HEADER) >= 0 && body == Lead(body) + before
    requires CutLeaves(md, Lead(body), before, after)
    requires var later := Lead(body) + after;
      && Index(later, HEADER) >= 0 && Settled(md, later) && Stripped(later) == Stripped(body)
      && |Split(Lead(later))| >= |Split(Lead(body))|
      && (|Split(later)| == |Split(body)| ==> Lead(later) == Lead(body))
    ensures Settled(md, body)
  {
    var later, cut := Lead(body) + after, |Split(Lead(body))|;
    var now := Split(later);
    if Late(md, now, |Split(Lead(later))|) {
      LateFurther(md, now, cut, |Split(Lead(later))|);
    }
  }

  lemma DropFirst(text: string, other: string, i: nat)
    requires |text| <= i <= |text + other|
    ensures (text + other)[i..] == other[i - |text|..]
  {
  }

  /** The text before a plan section that follows another heading ends past that heading. */
  lemma LeadGrows(text: string, other: string)
    requires Clean(text) && HEADING <= other && !(HEADER <= other) && Index(text + other, HEADER) >= 0
    ensures |Split(Lead(text + other))| >= |Split(text)|
  {
    var idx: nat := Index(text + other, HEADER);
    HeaderPastMark(text, other);
    var kept := TrimPast(text, other, 2, idx - |text|);
    SplitAppend(text, kept);
  }

  // ---------- One cut after the other ----------

  /** What the first plan section of a body starts with: blank lines and the header. */
  function Section(body: string): string
    requires Index(body, HEADER) >= 0
  {
    body[|Lead(body)|..]
  }

  /**
    What is left of a section with this rest after one cut: nothing, or the heading that ends
    it with all that follows; a plan header keeps its own line, as it is cut next.
   */
  function Remains(rest: string): string {
    var next := Index(rest, NEXT_HEADING);
    if next < 0 then ""
    else
      var other := rest[next + 1..];
      if HEADER <= other then "\n" + other else other
  }

  function CutOnce(body: string): (r: string)
    requires Index(body, HEADER) >= 0
    ensures |r| < |body|
  {
    Lead(body) + Remains(Rest(body))
  }

  /** No cut of the strip brings an item out. */
  ghost predicate Regular(md: Markdown, body: string)
    decreases |body|
  {
    Index(body, HEADER) >= 0 ==>
      BringsOutNothing(md, Lead(body), Section(body), Remains(Rest(body))) && Regular(md, CutOnce(body))
  }

  lemma SectionParts(body: string) returns (blank: string)
    requires Index(body, HEADER) >= 0
    ensures body == Lead(body) + Section(body) && Section(body) == blank + (HEADER + Rest(body))
    ensures Clean(Lead(body)) && AllNewlines(blank)
  {
    blank := BodyParts(body);
    Regroup(Lead(body), blank, HEADER + Rest(body));
    DropFirst(Lead(body), blank + (HEADER + Rest(body)), |Lead(body)|);
  }

  lemma SectionBreaks(blank: string, rest: string)
    requires AllNewlines(blank)
    ensures Breaks(blank + (HEADER + rest))
  {
    HeaderShape();
    assert (HEADER + rest)[0] == HEADER[0];
  }

  lemma RegroupFront(blank: string, mark: string, front: string, other: string)
    ensures blank + (mark + (front + "\n" + other)) == blank + (mark + front) + "\n" + other
  {
  }

  lemma SplitAtNewline(rest: string, next: nat)
    requires next < |rest| && rest[next] == '\n'
    ensures rest == rest[..next] + "\n" + rest[next + 1..]
  {
  }

  /** The heading that ends a plan section. */
  lemma SectionEnds(blank: string, rest: string) returns (front: string, other: string)
    requires Index(rest, NEXT_HEADING) >= 0
    ensures other == rest[Index(rest, NEXT_HEADING) + 1..] && HEADING <= other
    ensures blank + (HEADER + rest) == front + "\n" + other
  {
    var next: nat := Index(rest, NEXT_HEADING);
    NextIsHeading(rest);
    HeadingAt(rest, next);
    SplitAtNewline(rest, next);
    other := rest[next + 1..];
    RegroupFront(blank, HEADER, rest[..next], other);
    front := blank + (HEADER + rest[..next]);
  }

  /** A plan header on the line after clean text. */
  lemma HeaderOnNextLine(text: string, other: string)
    requires Clean(text) && HEADER <= other
    ensures var later := text + ("\n" + other);
      Index(later, HEADER) >= 0 && Lead(later) == text
    ensures Stripped(text + ("\n" + other)) == Stripped(text + other)
  {
    var later, after := text + ("\n" + other), other[|HEADER|..];
    assert other == HEADER + after;
    assert later == text + "\n" + (HEADER + after) && text + other == text + "" + (HEADER + after);
    FirstHeader(text, "\n", other);
    TrimsBack(text, "\n");
    assert later[..|text| + 1] == text + "\n";
    StripSection(text, "\n", after);
    StripSection(text, "", after);
  }

  /**
    How text is cut: by a step of the strip; the text before the next section holds this
    text; and unless all its lines stay, it gets shorter, or has a next section to cut.
   */
  predicate CutsDown(text: string, before: string, after: string) {
    && Stripped(text + after) == Stripped(text + before)
    && if Index(text + after, HEADER) >= 0 then
         && |Split(Lead(text + after))| >= |Split(text)|
         && (|Split(text + after)| == |Split(text + before)| ==> Lead(text + after) == text)
       else |Split(text + after)| < |Split(text + before)| || after == ""
  }

  lemma LastCutsDown(text: string, blank: string, rest: string)
    requires Clean(text) && AllNewlines(blank) && Index(rest, NEXT_HEADING) < 0
    ensures CutsDown(text, blank + (HEADER + rest), "")
  {
    Regroup(text, blank, HEADER + rest);
    StripSection(text, blank, rest);
    StripClean(text);
    assert text + "" == text;
  }

  lemma HeaderCutsDown(text: string, blank: string, rest: string)
    requires Clean(text) && AllNewlines(blank) && Index(rest, NEXT_HEADING) >= 0
    requires HEADER <= rest[Index(rest, NEXT_HEADING) + 1..]
    ensures CutsDown(text, blank + (HEADER + rest), "\n" + rest[Index(rest, NEXT_HEADING) + 1..])
  {
    Regroup(text, blank, HEADER + rest);
    StripSection(text, blank, rest);
    HeaderOnNextLine(text, rest[Index(rest, NEXT_HEADING) + 1..]);
  }

  lemma HeadingCutsDown(text: string, blank: string, rest: string)
    requires Clean(text) && AllNewlines(blank) && Index(rest, NEXT_HEADING) >= 0
    requires !(HEADER <= rest[Index(rest, NEXT_HEADING) + 1..])
    ensures CutsDown(text, blank + (HEADER + rest), rest[Index(rest, NEXT_HEADING) + 1..])
  {
    Regroup(text, blank, HEADER + rest);
    var moved := MovesUp(text, blank, rest);
    var front, other := SectionEnds(blank, rest);
    var i := ForeignMoves(text, blank + (HEADER + rest), front, other);
    if Index(text + other, HEADER) >= 0 {
      LeadGrows(text, other);
    }
  }

  lemma CutIsStep(body: string)
    requires Index(body, HEADER) >= 0
    ensures body == Lead(body) + Section(body)
    ensures CutsDown(Lead(body), Section(body), Remains(Rest(body)))
  {
    var blank := SectionParts(body);
    var text, rest := Lead(body), Rest(body);
    if Index(rest, NEXT_HEADING) < 0 {
      LastCutsDown(text, blank, rest);
    } else if HEADER <= rest[Index(rest, NEXT_HEADING) + 1..] {
      HeaderCutsDown(text, blank, rest);
    } else {
      HeadingCutsDown(text, blank, rest);
    }
  }

  /** The strip never raises the line sum, lowers it when an item moved or went, and else keeps all boxes. */
  lemma {:induction false} StripSettles(md: Markdown, body: string)
    requires Index(body, HEADER) >= 0 && Regular(md, body)
    ensures Settled(md, body)
    decreases |body|
  {
    CutStep(md, Lead(body), Section(body), Remains(Rest(body)));
    CutIsStep(body);
    if Index(CutOnce(body), HEADER) >= 0 {
      StripSettles(md, CutOnce(body));
      SettledLater(md, body, Section(body), Remains(Rest(body)));
    } else {
      StripKeepsItems(md, CutOnce(body));
      assert Remains(Rest(body)) == "" ==> CutOnce(body) == Lead(body);
      SettledAtOnce(md, body, Section(body), Remains(Rest(body)));
    }
  }

  // ---------- Cuts that bring nothing out ----------

  /** The parse knows the heading that ends a section, and as a plan section only a plan header. */
  predicate EndsKnown(md: Markdown, rest: string) {
    var next := Index(rest, NEXT_HEADING);
    next >= 0 ==>
      var other := rest[next + 1..];
      var heading := md.heading(Split(other)[0]);
      heading != "" && (HEADER <= other || !md.isPlan(heading))
  }

  lemma LastKnownCut(md: Markdown, text: string, before: string)
    requires Breaks(before) && !EmptyBox(LastLine(text))
    ensures BringsOutNothing(md, text, before, "")
  {
    CutAgrees(md, text, before);
    assert text + "" == text;
    AnchoredCut(md, text, before, "", |Split(text + before)|);
  }

  lemma KnownSectionCut(md: Markdown, text: string, blank: string, rest: string)
    requires AllNewlines(blank) && EndsKnown(md, rest) && !EmptyBox(LastLine(text))
    ensures BringsOutNothing(md, text, blank + (HEADER + rest), Remains(rest))
  {
    var before := blank + (HEADER + rest);
    SectionBreaks(blank, rest);
    if Index(rest, NEXT_HEADING) < 0 {
      LastKnownCut(md, text, before);
    } else {
      var front, other := SectionEnds(blank, rest);
      if HEADER <= other {
        var i := AdjacentMoves(text, before, front, other);
        AnchoredCut(md, text, before, "\n" + other, i);
      } else {
        var i := ForeignMoves(text, before, front, other);
        AnchoredCut(md, text, before, other, i);
      }
    }
  }

  /** Below a known heading, and with no empty box right before the section, a cut brings nothing out. */
  lemma KnownCut(md: Markdown, body: string)
    requires Index(body, HEADER) >= 0 && EndsKnown(md, Rest(body)) && !EmptyBox(LastLine(Lead(body)))
    ensures BringsOutNothing(md, Lead(body), Section(body), Remains(Rest(body)))
  {
    var blank := SectionParts(body);
    KnownSectionCut(md, Lead(body), blank, Rest(body));
  }

  /** An item of the body stands below its first plan section. */
  ghost predicate ItemBelow(md: Markdown, body: string)
    requires Index(body, HEADER) >= 0
  {
    exists item :: item in Parsed(md, body) && item.line >= |Split(Lead(body))|
  }

  lemma BelowIsLate(md: Markdown, body: string)
    requires Index(body, HEADER) >= 0
    ensures ItemBelow(md, body) <==> Late(md, Split(body), |Split(Lead(body))|)
  {
    var lines, cut := Split(body), |Split(Lead(body))|;
    ItemsAreLines(md, lines, |lines|);
    if Late(md, lines, cut) {
      var i :| cut <= i < |lines| && Counted(md, lines)[i];
      assert ItemAt(md, lines, i) in Parsed(md, body);
    }
    if ItemBelow(md, body) {
      var item :| item in Parsed(md, body) && item.line >= cut;
      assert Counted(md, lines)[item.line];
    }
  }

  lemma SameParsedIDs(md: Markdown, a: string, b: string)
    requires IDs(Parsed(md, a)) == IDs(Parsed(md, b))
    ensures LineSum(Parsed(md, a)) == LineSum(Parsed(md, b))
  {
    ItemsAreLines(md, Split(a), |Split(a)|);
    ItemsAreLines(md, Split(b), |Split(b)|);
    SameIDsSameSum(Parsed(md, a), Parsed(md, b));
  }

  /**
    When no cut brings an item out, stripping the plan sections of a body keeps the id of
    every item exactly when no item stands below the first of them; and then it keeps the
    marks too.
   */
  lemma StripKeepsIDsExactly(md: Markdown, body: string)
    requires Index(body, HEADER) >= 0 && Regular(md, body)
    ensures IDs(Parsed(md, Stripped(body))) == IDs(Parsed(md, body)) <==> !ItemBelow(md, body)
    ensures !ItemBelow(md, body) ==> Boxes(Parsed(md, Stripped(body))) == Boxes(Parsed(md, body))
  {
    var left, items := Parsed(md, Stripped(body)), Parsed(md, body);
    StripSettles(md, body);
    BelowIsLate(md, body);
    if !ItemBelow(md, body) {
      BoxesHoldIDs(left, items);
    } else if IDs(left) == IDs(items) {
      SameParsedIDs(md, Stripped(body), body);
    }
  }
}

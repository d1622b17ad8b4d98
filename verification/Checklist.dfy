/** Splitting a body into lines and joining it again. */
module Lines {
  predicate OneLine(s: string) {
    forall i :: 0 <= i < |s| ==> s[i] != '\n'
  }

  function Split(s: string): (lines: seq<string>)
    ensures |lines| > 0
  {
    if s == [] then [[]]
    else
      var rest := Split(s[1..]);
      if s[0] == '\n' then [[]] + rest else [[s[0]] + rest[0]] + rest[1..]
  }

  function Join(lines: seq<string>): string
    requires |lines| > 0
  {
    if |lines| == 1 then lines[0] else lines[0] + "\n" + Join(lines[1..])
  }

  lemma {:induction false} SplitGivesLines(s: string)
    ensures forall i :: 0 <= i < |Split(s)| ==> OneLine(Split(s)[i])
  {
    if s == [] {
    } else {
      SplitGivesLines(s[1..]);
    }
  }

  lemma {:induction false} JoinSplit(s: string)
    ensures Join(Split(s)) == s
  {
    if s == [] {
    } else {
      JoinSplit(s[1..]);
      var rest := Split(s[1..]);
      if s[0] == '\n' {
        assert ([[]] + rest)[1..] == rest;
        assert [] + "\n" + Join(rest) == s;
      } else if |rest| > 1 {
        assert ([[s[0]] + rest[0]] + rest[1..])[1..] == rest[1..];
        assert ([s[0]] + rest[0]) + "\n" + Join(rest[1..]) == [s[0]] + (rest[0] + "\n" + Join(rest[1..]));
      }
    }
  }

  lemma {:induction false} SplitHead(line: string, rest: string)
    requires OneLine(line)
    ensures Split(line + "\n" + rest) == [line] + Split(rest)
  {
    var s := line + "\n" + rest;
    if line == [] {
      assert s[1..] == rest;
    } else {
      assert s[1..] == line[1..] + "\n" + rest;
      SplitHead(line[1..], rest);
      assert [line[0]] + line[1..] == line;
      assert Split(s)[0] == line && Split(s)[1..] == Split(rest);
    }
  }

  lemma {:induction false} SplitLine(line: string)
    requires OneLine(line)
    ensures Split(line) == [line]
  {
    if line == [] {
    } else {
      SplitLine(line[1..]);
      assert [line[0]] + line[1..] == line;
    }
  }

  lemma {:induction false} SplitJoin(lines: seq<string>)
    requires |lines| > 0 && forall i :: 0 <= i < |lines| ==> OneLine(lines[i])
    ensures Split(Join(lines)) == lines
  {
    if |lines| == 1 {
      SplitLine(lines[0]);
    } else {
      SplitJoin(lines[1..]);
      SplitHead(lines[0], Join(lines[1..]));
    }
  }
}

/**
  The issue checklist: parsing it out of a body, ticking items in it, and what a
  re-parse of the ticked body sees.
 */
module Checklist {
  import opened Strings
  import opened Lines

  /**
    The two judgements left to the caller: the text of a Markdown heading line, and
    whether a section is the one Hermes writes its own plan to.
   */
  datatype Markdown = Markdown(heading: string -> string, isPlan: string -> bool)

  /** Headings start with '#'; other lines have none. */
  function Heading(md: Markdown, line: string): string {
    if line != [] && line[0] == '#' then md.heading(line) else ""
  }

  /** "- [ ] text", "- [x] text" or "- [X] text". */
  predicate IsItem(line: string) {
    && |line| > 6
    && line[0] == '-' && line[1] == ' ' && line[2] == '[' && line[4] == ']' && line[5] == ' '
    && (line[3] == ' ' || line[3] == 'x' || line[3] == 'X')
  }

  predicate IsChecked(line: string)
    requires IsItem(line)
  {
    line[3] != ' '
  }

  datatype Item = Item(id: string, text: string, checked: bool, line: nat, section: string)

  function ItemID(n: nat): string {
    "item-" + Dec(n)
  }

  /** The section in force at line n. */
  function SectionAt(md: Markdown, lines: seq<string>, n: nat): string
    requires n <= |lines|
  {
    if n == 0 then ""
    else if Heading(md, lines[n - 1]) != "" then Heading(md, lines[n - 1])
    else SectionAt(md, lines, n - 1)
  }

  /** Line i is a checklist item that counts. */
  predicate Counts(md: Markdown, lines: seq<string>, i: nat)
    requires i < |lines|
  {
    Heading(md, lines[i]) == "" && !md.isPlan(SectionAt(md, lines, i)) && IsItem(lines[i])
  }

  function ItemAt(md: Markdown, lines: seq<string>, i: nat): Item
    requires i < |lines| && IsItem(lines[i])
  {
    Item(ItemID(i), TrimSpace(lines[i][6..]), IsChecked(lines[i]), i, SectionAt(md, lines, i))
  }

  /** The items among the first n lines. */
  function Items(md: Markdown, lines: seq<string>, n: nat): seq<Item>
    requires n <= |lines|
  {
    if n == 0 then []
    else if Counts(md, lines, n - 1) then Items(md, lines, n - 1) + [ItemAt(md, lines, n - 1)]
    else Items(md, lines, n - 1)
  }

  function Parsed(md: Markdown, body: string): seq<Item> {
    Items(md, Split(body), |Split(body)|)
  }

  method ExtractChecklist(md: Markdown, body: string) returns (items: seq<Item>)
    ensures items == Parsed(md, body)
  {
    var lines := Split(body);
    var section := "";
    items := [];
    for i := 0 to |lines|
      invariant section == SectionAt(md, lines, i)
      invariant items == Items(md, lines, i)
    {
      var heading := Heading(md, lines[i]);
      if heading != "" {
        section := heading;
      } else if !md.isPlan(section) && IsItem(lines[i]) {
        items := items + [Item(ItemID(i), TrimSpace(lines[i][6..]), lines[i][3] != ' ', i, section)];
      }
    }
  }

  // ---------- Ticking ----------

  function Tick(line: string): string
    requires IsItem(line)
  {
    "- [x] " + line[6..]
  }

  lemma TickedLine(line: string)
    requires IsItem(line)
    ensures IsItem(Tick(line)) && IsChecked(Tick(line)) && Tick(line)[6..] == line[6..]
    ensures OneLine(line) ==> OneLine(Tick(line))
    ensures !IsChecked(line) ==> Tick(line) != line
  {
    if OneLine(line) {
      forall i | 0 <= i < |Tick(line)| ensures Tick(line)[i] != '\n' {
        assert i >= 6 ==> Tick(line)[i] == line[i];
      }
    }
  }

  /** A choice of lines to tick: unchecked items that count. */
  ghost predicate Tickable(md: Markdown, lines: seq<string>, ticks: nat -> bool) {
    forall i :: 0 <= i < |lines| && ticks(i) ==> Counts(md, lines, i) && !IsChecked(lines[i])
  }

  function Ticked(lines: seq<string>, ticks: nat -> bool): (r: seq<string>)
    ensures |r| == |lines|
  {
    seq(|lines|, i requires 0 <= i < |lines| => if ticks(i) && IsItem(lines[i]) then Tick(lines[i]) else lines[i])
  }

  lemma TickedAt(md: Markdown, lines: seq<string>, ticks: nat -> bool, i: nat)
    requires Tickable(md, lines, ticks) && i < |lines|
    ensures Heading(md, Ticked(lines, ticks)[i]) == Heading(md, lines[i])
    ensures IsItem(Ticked(lines, ticks)[i]) == IsItem(lines[i])
    ensures IsItem(lines[i]) ==>
      var line := Ticked(lines, ticks)[i];
      line[6..] == lines[i][6..] && (IsChecked(line) <==> IsChecked(lines[i]) || ticks(i))
  {
    if ticks(i) {
      TickedLine(lines[i]);
    }
  }

  lemma {:induction false} TickedSections(md: Markdown, lines: seq<string>, ticks: nat -> bool, n: nat)
    requires Tickable(md, lines, ticks) && n <= |lines|
    ensures SectionAt(md, Ticked(lines, ticks), n) == SectionAt(md, lines, n)
  {
    if n == 0 {
    } else {
      TickedAt(md, lines, ticks, n - 1);
      TickedSections(md, lines, ticks, n - 1);
    }
  }

  /** An item as a re-parse sees it: only its mark may have changed. */
  function Marked(item: Item, ticks: nat -> bool): Item {
    item.(checked := item.checked || ticks(item.line))
  }

  function MarkAll(items: seq<Item>, ticks: nat -> bool): seq<Item> {
    seq(|items|, i requires 0 <= i < |items| => Marked(items[i], ticks))
  }

  lemma MarkAllMore(items: seq<Item>, item: Item, ticks: nat -> bool)
    ensures MarkAll(items + [item], ticks) == MarkAll(items, ticks) + [Marked(item, ticks)]
  {
  }

  lemma TickedItem(md: Markdown, lines: seq<string>, ticks: nat -> bool, i: nat)
    requires Tickable(md, lines, ticks) && i < |lines|
    ensures Counts(md, Ticked(lines, ticks), i) == Counts(md, lines, i)
    ensures Counts(md, lines, i) ==> ItemAt(md, Ticked(lines, ticks), i) == Marked(ItemAt(md, lines, i), ticks)
  {
    TickedAt(md, lines, ticks, i);
    TickedSections(md, lines, ticks, i);
  }

  lemma {:induction false} TickedItems(md: Markdown, lines: seq<string>, ticks: nat -> bool, n: nat)
    requires Tickable(md, lines, ticks) && n <= |lines|
    ensures Items(md, Ticked(lines, ticks), n) == MarkAll(Items(md, lines, n), ticks)
  {
    if n == 0 {
    } else {
      TickedItems(md, lines, ticks, n - 1);
      TickedItem(md, lines, ticks, n - 1);
      if Counts(md, lines, n - 1) {
        MarkAllMore(Items(md, lines, n - 1), ItemAt(md, lines, n - 1), ticks);
      }
    }
  }

  /** The body with the chosen lines ticked. */
  function TickBody(body: string, ticks: nat -> bool): string {
    Join(Ticked(Split(body), ticks))
  }

  /** Re-parsing a ticked body: same ids, texts, lines and sections, and exactly the chosen items newly checked. */
  lemma TickReparses(md: Markdown, body: string, ticks: nat -> bool)
    requires Tickable(md, Split(body), ticks)
    ensures Split(TickBody(body, ticks)) == Ticked(Split(body), ticks)
    ensures Parsed(md, TickBody(body, ticks)) == MarkAll(Parsed(md, body), ticks)
  {
    var lines := Split(body);
    SplitGivesLines(body);
    forall i | 0 <= i < |lines| ensures OneLine(Ticked(lines, ticks)[i]) {
      if ticks(i) {
        TickedLine(lines[i]);
      }
    }
    SplitJoin(Ticked(lines, ticks));
    TickedItems(md, lines, ticks, |lines|);
  }

  function CheckedCount(items: seq<Item>): nat
    decreases |items|
  {
    if items == [] then 0
    else CheckedCount(items[..|items| - 1]) + Mark(items[|items| - 1].checked)
  }

  /** The texts reported as updated, in line order. */
  function UpdatedTexts(lines: seq<string>, ticks: nat -> bool, n: nat): seq<string>
    requires n <= |lines|
  {
    if n == 0 then []
    else if ticks(n - 1) && IsItem(lines[n - 1]) then UpdatedTexts(lines, ticks, n - 1) + [TrimSpace(lines[n - 1][6..])]
    else UpdatedTexts(lines, ticks, n - 1)
  }

  function Mark(checked: bool): nat {
    if checked then 1 else 0
  }

  lemma MarkOneMore(items: seq<Item>, item: Item, ticks: nat -> bool)
    ensures CheckedCount(items + [item]) == CheckedCount(items) + Mark(item.checked)
    ensures CheckedCount(MarkAll(items + [item], ticks))
         == CheckedCount(MarkAll(items, ticks)) + Mark(item.checked || ticks(item.line))
  {
    assert (items + [item])[..|items|] == items;
    var marked := MarkAll(items, ticks);
    MarkAllMore(items, item, ticks);
    assert (marked + [Marked(item, ticks)])[..|marked|] == marked;
  }

  lemma {:induction false} TicksAreCounted(md: Markdown, lines: seq<string>, ticks: nat -> bool, n: nat)
    requires Tickable(md, lines, ticks) && n <= |lines|
    ensures CheckedCount(MarkAll(Items(md, lines, n), ticks))
         == CheckedCount(Items(md, lines, n)) + |UpdatedTexts(lines, ticks, n)|
  {
    if n == 0 {
    } else {
      TicksAreCounted(md, lines, ticks, n - 1);
      if Counts(md, lines, n - 1) {
        MarkOneMore(Items(md, lines, n - 1), ItemAt(md, lines, n - 1), ticks);
      }
    }
  }

  /** Ticking nothing gives the body back; ticking something changes it. */
  lemma TickChangesExactly(md: Markdown, body: string, ticks: nat -> bool)
    requires Tickable(md, Split(body), ticks)
    ensures TickBody(body, ticks) == body <==> UpdatedTexts(Split(body), ticks, |Split(body)|) == []
  {
    var lines := Split(body);
    JoinSplit(body);
    NoTicksNoTexts(lines, ticks, |lines|);
    if forall i :: 0 <= i < |lines| ==> !(ticks(i) && IsItem(lines[i])) {
      assert Ticked(lines, ticks) == lines;
    } else {
      var i :| 0 <= i < |lines| && ticks(i) && IsItem(lines[i]);
      TickedLine(lines[i]);
      assert Ticked(lines, ticks)[i] != lines[i];
      TickReparses(md, body, ticks);
    }
  }

  lemma {:induction false} NoTicksNoTexts(lines: seq<string>, ticks: nat -> bool, n: nat)
    requires n <= |lines|
    ensures UpdatedTexts(lines, ticks, n) == [] <==> forall i :: 0 <= i < n ==> !(ticks(i) && IsItem(lines[i]))
  {
    if n == 0 {
    } else {
      NoTicksNoTexts(lines, ticks, n - 1);
    }
  }
}

/**
  Mapping sub-tasks to checklist items: the greedy score-based mapping, and the mapping
  by declared ids that replaces it as soon as any sub-task declares one.
 */
module Mapping {
  import opened State
  import opened Checklist

  datatype IssueState = DraftedIssue | PlannedIssue | BlockedIssue | UnsyncedChecklist | SyncedChecklist

  /** Sub-task and item are positions in the two lists. */
  datatype Link = Link(subTask: nat, item: nat, score: int, high: bool)

  datatype Mapped = Mapped(
    links: seq<Link>,
    unmappedTasks: seq<nat>,
    unmappedItems: seq<nat>,
    needsHuman: bool,
    synced: bool,
    state: IssueState)

  /** Item j is not taken by any link of a sub-task before t. */
  predicate FreeAt(links: seq<Link>, t: nat, j: nat) {
    forall k :: 0 <= k < |links| && links[k].subTask < t ==> links[k].item != j
  }

  predicate TaskLinked(links: seq<Link>, t: nat) {
    exists k :: 0 <= k < |links| && links[k].subTask == t
  }

  predicate SomeLow(links: seq<Link>) {
    exists k :: 0 <= k < |links| && !links[k].high
  }

  predicate ItemLinked(links: seq<Link>, j: nat) {
    exists k :: 0 <= k < |links| && links[k].item == j
  }

  ghost predicate Increasing(positions: seq<nat>) {
    forall i, j :: 0 <= i < j < |positions| ==> positions[i] < positions[j]
  }

  /** The sub-tasks below n without a link, in order. */
  ghost predicate ListsFreeTasks(unmapped: seq<nat>, links: seq<Link>, n: nat) {
    Increasing(unmapped) && forall t: nat :: t in unmapped <==> t < n && !TaskLinked(links, t)
  }

  /** The items below n without a link, in order. */
  ghost predicate ListsFreeItems(unmapped: seq<nat>, links: seq<Link>, n: nat) {
    Increasing(unmapped) && forall j: nat :: j in unmapped <==> j < n && !ItemLinked(links, j)
  }

  // ---------- The greedy mapping ----------

  type Scoring = (string, string) -> int

  /** The choice for one description: what is scored, and for which sub-task. */
  datatype Choice = Choice(score: Scoring, description: string, items: seq<Item>, links: seq<Link>, t: nat)
  {
    predicate Free(j: nat) {
      FreeAt(links, t, j)
    }

    function Score(j: nat): int
      requires j < |items|
    {
      score(description, items[j].text)
    }

    /** Item j wins over every free item, and over the earlier ones strictly. */
    ghost predicate Wins(j: nat) {
      && j < |items| && Free(j) && Score(j) > 0
      && (forall i :: 0 <= i < |items| && Free(i) ==> Score(i) <= Score(j))
      && (forall i :: 0 <= i < j && Free(i) ==> Score(i) < Score(j))
    }

    /** The winner is beyond doubt: at least 80, and 10 ahead of every other free item. */
    ghost predicate Clear(j: nat)
      requires j < |items|
    {
      Score(j) >= 80 && forall i :: 0 <= i < |items| && Free(i) && i != j ==> Score(j) - Score(i) >= 10
    }

    ghost predicate NothingScores() {
      forall i :: 0 <= i < |items| && Free(i) ==> Score(i) <= 0
    }
  }

  method BestItem(choice: Choice, used: array<bool>) returns (best: int, bestScore: int, high: bool)
    requires used.Length == |choice.items|
    requires forall i :: 0 <= i < used.Length ==> used[i] == !choice.Free(i)
    ensures best < 0 ==> choice.NothingScores()
    ensures 0 <= best ==> choice.Wins(best) && bestScore == choice.Score(best)
    ensures 0 <= best ==> (high <==> choice.Clear(best))
  {
    best, bestScore := -1, 0;
    var second := 0;
    ghost var rival := -1;
    for i := 0 to |choice.items|
      invariant -1 <= best < i && 0 <= second <= bestScore
      invariant best < 0 <==> bestScore == 0
      invariant best >= 0 ==> choice.Free(best) && choice.Score(best) == bestScore
      invariant forall j :: 0 <= j < i && choice.Free(j) ==> choice.Score(j) <= bestScore
      invariant forall j :: 0 <= j < best && choice.Free(j) ==> choice.Score(j) < bestScore
      invariant forall j :: 0 <= j < i && choice.Free(j) && j != best ==> choice.Score(j) <= second
      invariant second > 0 ==>
        0 <= rival < i && rival != best && choice.Free(rival) && choice.Score(rival) == second
    {
      if !used[i] {
        var current := choice.Score(i);
        if current > bestScore {
          rival := best;
          second, bestScore, best := bestScore, current, i;
        } else if current > second {
          rival := i;
          second := current;
        }
      }
    }
    high := bestScore >= 80 && bestScore - second >= 10;
  }

  function ChoiceFor(score: Scoring, subtasks: seq<SubTask>, items: seq<Item>, links: seq<Link>, t: nat): Choice
    requires t < |subtasks|
  {
    Choice(score, subtasks[t].description, items, links, t)
  }

  /** A link is the greedy choice for its sub-task, and is high exactly when it is beyond doubt. */
  ghost predicate GreedyLink(score: Scoring, subtasks: seq<SubTask>, items: seq<Item>, links: seq<Link>, link: Link) {
    && link.subTask < |subtasks|
    && var choice := ChoiceFor(score, subtasks, items, links, link.subTask);
    && choice.Wins(link.item)
    && link.score == choice.Score(link.item)
    && (link.high <==> choice.Clear(link.item))
  }

  /** What the greedy pass has made of the first n sub-tasks. */
  ghost predicate GreedyPass(score: Scoring, subtasks: seq<SubTask>, items: seq<Item>, n: nat, links: seq<Link>)
    requires n <= |subtasks|
  {
    && (forall k :: 0 <= k < |links| ==>
          links[k].subTask < n && GreedyLink(score, subtasks, items, links, links[k]))
    && (forall i, j :: 0 <= i < j < |links| ==> links[i].subTask < links[j].subTask)
    && (forall t :: 0 <= t < n && !TaskLinked(links, t) ==>
          ChoiceFor(score, subtasks, items, links, t).NothingScores())
  }

  /** A link for sub-task n changes no choice made up to n. */
  lemma LaterLink(score: Scoring, subtasks: seq<SubTask>, items: seq<Item>, links: seq<Link>, link: Link, t: nat)
    requires t <= link.subTask && t < |subtasks|
    ensures var was, now := ChoiceFor(score, subtasks, items, links, t),
                            ChoiceFor(score, subtasks, items, links + [link], t);
      && (forall j: nat :: was.Free(j) == now.Free(j))
      && (forall j: nat :: was.Wins(j) == now.Wins(j))
      && (forall j :: 0 <= j < |items| ==> was.Clear(j) == now.Clear(j))
      && was.NothingScores() == now.NothingScores()
  {
    var was := ChoiceFor(score, subtasks, items, links, t);
    var now := ChoiceFor(score, subtasks, items, links + [link], t);
    forall j: nat ensures was.Free(j) == now.Free(j) {
      if was.Free(j) {
        forall k | 0 <= k < |links + [link]| && (links + [link])[k].subTask < t
          ensures (links + [link])[k].item != j
        {
          assert k < |links|;
        }
      } else {
        var k :| 0 <= k < |links| && links[k].subTask < t && links[k].item == j;
        assert (links + [link])[k] == links[k];
      }
    }
  }

  lemma PassAdds(score: Scoring, subtasks: seq<SubTask>, items: seq<Item>, n: nat, links: seq<Link>, link: Link)
    requires n < |subtasks| && GreedyPass(score, subtasks, items, n, links)
    requires link.subTask == n && GreedyLink(score, subtasks, items, links, link)
    ensures GreedyPass(score, subtasks, items, n + 1, links + [link])
  {
    var more := links + [link];
    forall k | 0 <= k < |more| ensures GreedyLink(score, subtasks, items, more, more[k]) {
      LaterLink(score, subtasks, items, links, link, more[k].subTask);
    }
    assert more[|links|] == link;
    forall t | 0 <= t < n + 1 && !TaskLinked(more, t)
      ensures ChoiceFor(score, subtasks, items, more, t).NothingScores()
    {
      LinkedStays(links, link, t);
      LaterLink(score, subtasks, items, links, link, t);
    }
  }

  lemma LinkedStays(links: seq<Link>, link: Link, p: nat)
    ensures TaskLinked(links + [link], p) <==> TaskLinked(links, p) || link.subTask == p
    ensures ItemLinked(links + [link], p) <==> ItemLinked(links, p) || link.item == p
    ensures SomeLow(links + [link]) <==> SomeLow(links) || !link.high
  {
    var more := links + [link];
    assert more[|links|] == link;
    assert forall k :: 0 <= k < |links| ==> more[k] == links[k];
  }

  /** When all links are of earlier sub-tasks, the free items are the unlinked ones. */
  lemma FreeIsUnlinked(score: Scoring, subtasks: seq<SubTask>, items: seq<Item>, links: seq<Link>, t: nat)
    requires t < |subtasks| && forall k :: 0 <= k < |links| ==> links[k].subTask < t
    ensures forall j: nat :: ChoiceFor(score, subtasks, items, links, t).Free(j) <==> !ItemLinked(links, j)
  {
  }

  lemma PassSkips(score: Scoring, subtasks: seq<SubTask>, items: seq<Item>, n: nat, links: seq<Link>,
                  unmapped: seq<nat>)
    requires n < |subtasks| && GreedyPass(score, subtasks, items, n, links)
    requires ListsFreeTasks(unmapped, links, n)
    requires ChoiceFor(score, subtasks, items, links, n).NothingScores()
    ensures GreedyPass(score, subtasks, items, n + 1, links)
    ensures ListsFreeTasks(unmapped + [n], links, n + 1)
  {
    Appended(unmapped, n);
  }

  lemma Appended(positions: seq<nat>, n: nat)
    requires Increasing(positions) && forall p :: p in positions ==> p < n
    ensures Increasing(positions + [n])
    ensures forall p :: p in positions + [n] <==> p in positions || p == n
  {
    var more := positions + [n];
    forall i, j | 0 <= i < j < |more| ensures more[i] < more[j] {
      assert positions[i] in positions;
    }
  }

  method UnlinkedItems(items: seq<Item>, used: array<bool>, ghost links: seq<Link>) returns (unmapped: seq<nat>)
    requires used.Length == |items|
    requires forall j :: 0 <= j < used.Length ==> used[j] == ItemLinked(links, j)
    ensures ListsFreeItems(unmapped, links, |items|)
  {
    unmapped := [];
    for j := 0 to |items|
      invariant ListsFreeItems(unmapped, links, j)
    {
      if !used[j] {
        Appended(unmapped, j);
        unmapped := unmapped + [j];
      }
    }
  }

  ghost predicate GreedyResult(score: Scoring, subtasks: seq<SubTask>, items: seq<Item>, r: Mapped) {
    && GreedyPass(score, subtasks, items, |subtasks|, r.links)
    && ListsFreeTasks(r.unmappedTasks, r.links, |subtasks|)
    && ListsFreeItems(r.unmappedItems, r.links, |items|)
    && (r.needsHuman <==> SomeLow(r.links))
    && (r.synced <==> !r.needsHuman && r.unmappedTasks == [] && r.unmappedItems == [])
    && r.state == (if r.needsHuman then BlockedIssue else if r.synced then SyncedChecklist else UnsyncedChecklist)
  }

  method GreedyMapping(score: Scoring, subtasks: seq<SubTask>, items: seq<Item>) returns (r: Mapped)
    ensures GreedyResult(score, subtasks, items, r)
  {
    var used := new bool[|items|](_ => false);
    var links: seq<Link>, unmapped: seq<nat>, needsHuman := [], [], false;
    for t := 0 to |subtasks|
      invariant GreedyPass(score, subtasks, items, t, links)
      invariant ListsFreeTasks(unmapped, links, t)
      invariant forall j :: 0 <= j < used.Length ==> used[j] == ItemLinked(links, j)
      invariant needsHuman <==> SomeLow(links)
    {
      FreeIsUnlinked(score, subtasks, items, links, t);
      var best, bestScore, high := BestItem(ChoiceFor(score, subtasks, items, links, t), used);
      if best < 0 {
        PassSkips(score, subtasks, items, t, links, unmapped);
        unmapped := unmapped + [t];
      } else {
        var link := Link(t, best, bestScore, high);
        PassAdds(score, subtasks, items, t, links, link);
        StepKeepsLists(links, link, unmapped, t);
        links := links + [link];
        used[best] := true;
        needsHuman := needsHuman || !high;
      }
    }
    var left := UnlinkedItems(items, used, links);
    var synced := !needsHuman && unmapped == [] && left == [];
    r := Mapped(links, unmapped, left, needsHuman, synced,
      if needsHuman then BlockedIssue else if synced then SyncedChecklist else UnsyncedChecklist);
  }

  lemma StepKeepsLists(links: seq<Link>, link: Link, unmapped: seq<nat>, t: nat)
    requires ListsFreeTasks(unmapped, links, t) && link.subTask == t
    ensures ListsFreeTasks(unmapped, links + [link], t + 1)
    ensures forall p: nat :: ItemLinked(links + [link], p) <==> ItemLinked(links, p) || link.item == p
    ensures SomeLow(links + [link]) <==> SomeLow(links) || !link.high
  {
    forall p: nat
      ensures TaskLinked(links + [link], p) <==> TaskLinked(links, p) || t == p
      ensures ItemLinked(links + [link], p) <==> ItemLinked(links, p) || link.item == p
    {
      LinkedStays(links, link, p);
    }
    LinkedStays(links, link, 0);
  }

  // ---------- What a mapping amounts to ----------

  ghost predicate Distinct(positions: seq<nat>) {
    forall i, j :: 0 <= i < j < |positions| ==> positions[i] != positions[j]
  }

  function Below(n: nat): (r: set<nat>)
    ensures |r| == n && forall p: nat :: p in r <==> p < n
  {
    if n == 0 then {} else Below(n - 1) + {n - 1}
  }

  function Members(positions: seq<nat>): set<nat> {
    set p | p in positions
  }

  lemma {:induction false} DistinctSize(positions: seq<nat>)
    requires Distinct(positions)
    ensures |Members(positions)| == |positions|
  {
    if positions == [] {
    } else {
      var rest, last := positions[..|positions| - 1], positions[|positions| - 1];
      DistinctSize(rest);
      assert Members(positions) == Members(rest) + {last};
    }
  }

  /** Two lists without repetition that share out 0..n have n entries together. */
  lemma SharedOut(taken: seq<nat>, left: seq<nat>, n: nat)
    requires Distinct(taken) && Increasing(left)
    requires forall p: nat :: p in left <==> p < n && p !in taken
    requires forall p: nat :: p in taken ==> p < n
    ensures |taken| + |left| == n
  {
    DistinctSize(taken);
    DistinctSize(left);
    assert Below(n) == Members(taken) + Members(left);
    assert Members(taken) !! Members(left);
  }

  function LinkTasks(links: seq<Link>): (r: seq<nat>)
    ensures |r| == |links|
  {
    seq(|links|, k requires 0 <= k < |links| => links[k].subTask)
  }

  function LinkItems(links: seq<Link>): (r: seq<nat>)
    ensures |r| == |links|
  {
    seq(|links|, k requires 0 <= k < |links| => links[k].item)
  }

  lemma LinkedIsListed(links: seq<Link>, p: nat)
    ensures TaskLinked(links, p) <==> p in LinkTasks(links)
    ensures ItemLinked(links, p) <==> p in LinkItems(links)
  {
    if TaskLinked(links, p) {
      var k :| 0 <= k < |links| && links[k].subTask == p;
      assert LinkTasks(links)[k] == p;
    }
    if ItemLinked(links, p) {
      var k :| 0 <= k < |links| && links[k].item == p;
      assert LinkItems(links)[k] == p;
    }
  }

  /** A greedy mapping takes each sub-task and each item at most once. */
  lemma GreedyTakesOnce(score: Scoring, subtasks: seq<SubTask>, items: seq<Item>, r: Mapped)
    requires GreedyResult(score, subtasks, items, r)
    ensures Distinct(LinkTasks(r.links)) && Distinct(LinkItems(r.links))
  {
    forall i, j | 0 <= i < j < |r.links| ensures r.links[i].item != r.links[j].item {
      assert GreedyLink(score, subtasks, items, r.links, r.links[j]);
      assert FreeAt(r.links, r.links[j].subTask, r.links[j].item);
    }
  }

  /** Sub-tasks and items each split exactly into the linked, once each, and the unmapped. */
  lemma GreedySplits(score: Scoring, subtasks: seq<SubTask>, items: seq<Item>, r: Mapped)
    requires GreedyResult(score, subtasks, items, r)
    ensures Distinct(LinkTasks(r.links)) && |r.links| + |r.unmappedTasks| == |subtasks|
    ensures Distinct(LinkItems(r.links)) && |r.links| + |r.unmappedItems| == |items|
  {
    GreedyTakesOnce(score, subtasks, items, r);
    forall p: nat
      ensures TaskLinked(r.links, p) <==> p in LinkTasks(r.links)
      ensures ItemLinked(r.links, p) <==> p in LinkItems(r.links)
    {
      LinkedIsListed(r.links, p);
    }
    forall k | 0 <= k < |r.links| ensures LinkTasks(r.links)[k] < |subtasks| && LinkItems(r.links)[k] < |items| {
      assert GreedyLink(score, subtasks, items, r.links, r.links[k]);
    }
    SharedOut(LinkTasks(r.links), r.unmappedTasks, |subtasks|);
    SharedOut(LinkItems(r.links), r.unmappedItems, |items|);
  }

  /** "Synced" means a one-to-one mapping of all sub-tasks onto all items, every link beyond doubt. */
  lemma GreedySyncedExactly(score: Scoring, subtasks: seq<SubTask>, items: seq<Item>, r: Mapped)
    requires GreedyResult(score, subtasks, items, r)
    ensures r.synced <==>
      |r.links| == |subtasks| == |items| && forall k :: 0 <= k < |r.links| ==> r.links[k].high
  {
    GreedySplits(score, subtasks, items, r);
  }
}

/** The mapping by declared ids, and the choice between the two. */
module DeclaredMapping {
  import opened State
  import opened Strings
  import opened Checklist
  import opened Mapping
  import ChecklistSync
  import ChecklistCoverage
  import Lines

  /** One declaration: a sub-task and a non-blank id, trimmed. */
  datatype Claim = Claim(subTask: nat, id: string)

  function ClaimsIn(t: nat, ids: seq<string>): seq<Claim> {
    if ids == [] then []
    else
      var id := TrimSpace(ids[|ids| - 1]);
      ClaimsIn(t, ids[..|ids| - 1]) + if id == "" then [] else [Claim(t, id)]
  }

  /** The declarations of the sub-tasks, in order. */
  function Claims(subtasks: seq<SubTask>): seq<Claim> {
    if subtasks == [] then []
    else
      var n := |subtasks| - 1;
      Claims(subtasks[..n]) + ClaimsIn(n, subtasks[n].checklistItemIDs)
  }

  /** The last item with an id; -1 when there is none. */
  function ItemWith(items: seq<Item>, id: string): (j: int)
    ensures -1 <= j < |items| && (0 <= j ==> items[j].id == id)
    ensures j < 0 ==> forall i :: 0 <= i < |items| ==> items[i].id != id
  {
    if items == [] then -1
    else if items[|items| - 1].id == id then |items| - 1
    else ItemWith(items[..|items| - 1], id)
  }

  predicate Claimed(claims: seq<Claim>, id: string) {
    exists k :: 0 <= k < |claims| && claims[k].id == id
  }

  /** The first claim of each known id makes a link. */
  function DeclaredLinks(items: seq<Item>, claims: seq<Claim>): seq<Link> {
    if claims == [] then []
    else
      var before, claim := claims[..|claims| - 1], claims[|claims| - 1];
      var j := ItemWith(items, claim.id);
      if j < 0 || Claimed(before, claim.id) then DeclaredLinks(items, before)
      else DeclaredLinks(items, before) + [Link(claim.subTask, j, 100, true)]
  }

  /** Some claim names no item, or names one that was claimed before. */
  predicate Troubled(items: seq<Item>, claims: seq<Claim>) {
    exists k :: 0 <= k < |claims| && (ItemWith(items, claims[k].id) < 0 || Claimed(claims[..k], claims[k].id))
  }

  lemma ClaimAdded(items: seq<Item>, claims: seq<Claim>, claim: Claim)
    ensures ItemWith(items, claim.id) < 0 || Claimed(claims, claim.id) ==>
      DeclaredLinks(items, claims + [claim]) == DeclaredLinks(items, claims) && Troubled(items, claims + [claim])
    ensures ItemWith(items, claim.id) >= 0 && !Claimed(claims, claim.id) ==>
      && DeclaredLinks(items, claims + [claim])
         == DeclaredLinks(items, claims) + [Link(claim.subTask, ItemWith(items, claim.id), 100, true)]
      && Troubled(items, claims + [claim]) == Troubled(items, claims)
    ensures forall id :: Claimed(claims + [claim], id) <==> Claimed(claims, id) || claim.id == id
  {
    var more := claims + [claim];
    assert more[..|claims|] == claims && more[|claims|] == claim;
    assert forall k :: 0 <= k < |claims| ==> more[k] == claims[k] && more[..k] == claims[..k];
  }

  ghost predicate Indexes(byID: map<string, nat>, items: seq<Item>) {
    && (forall id :: id in byID <==> ItemWith(items, id) >= 0)
    && (forall id :: id in byID ==> byID[id] == ItemWith(items, id))
  }

  method ItemsByID(items: seq<Item>) returns (byID: map<string, nat>)
    ensures Indexes(byID, items)
  {
    byID := map[];
    for i := 0 to |items|
      invariant Indexes(byID, items[..i])
    {
      assert items[..i + 1][..i] == items[..i];
      byID := byID[items[i].id := i];
    }
    assert items[..|items|] == items;
  }

  ghost predicate DeclaredResult(subtasks: seq<SubTask>, items: seq<Item>, r: Mapped) {
    && r.links == DeclaredLinks(items, Claims(subtasks))
    && r.unmappedTasks == []
    && ListsFreeItems(r.unmappedItems, r.links, |items|)
    && (r.needsHuman <==> Troubled(items, Claims(subtasks)))
    && (r.synced <==> !r.needsHuman && r.unmappedItems == [])
    && r.state == (if r.needsHuman then BlockedIssue else if r.synced then SyncedChecklist else UnsyncedChecklist)
  }

  /** What the loops know after a list of claims. */
  ghost predicate Processed(items: seq<Item>, claims: seq<Claim>, links: seq<Link>, seen: set<string>,
                            needsHuman: bool) {
    && links == DeclaredLinks(items, claims)
    && (needsHuman <==> Troubled(items, claims))
    && forall id :: id in seen <==> ItemWith(items, id) >= 0 && Claimed(claims, id)
  }

  lemma ClaimRefused(items: seq<Item>, claims: seq<Claim>, claim: Claim, links: seq<Link>, seen: set<string>,
                     needsHuman: bool)
    requires Processed(items, claims, links, seen, needsHuman)
    requires ItemWith(items, claim.id) < 0 || claim.id in seen
    ensures Processed(items, claims + [claim], links, seen, true)
  {
    ClaimAdded(items, claims, claim);
    assert ItemWith(items, claim.id) < 0 || Claimed(claims, claim.id);
  }

  lemma ClaimAccepted(items: seq<Item>, claims: seq<Claim>, claim: Claim, links: seq<Link>, seen: set<string>,
                      needsHuman: bool)
    requires Processed(items, claims, links, seen, needsHuman)
    requires ItemWith(items, claim.id) >= 0 && claim.id !in seen
    ensures Processed(items, claims + [claim], links + [Link(claim.subTask, ItemWith(items, claim.id), 100, true)],
                      seen + {claim.id}, needsHuman)
  {
    ClaimAdded(items, claims, claim);
    assert !Claimed(claims, claim.id);
  }

  ghost predicate Marks(used: seq<bool>, links: seq<Link>) {
    forall j :: 0 <= j < |used| ==> used[j] == ItemLinked(links, j)
  }

  /** One declaration: refused when it names no item or a claimed one, linked otherwise. */
  method ProcessClaim(items: seq<Item>, byID: map<string, nat>, claim: Claim, used: array<bool>,
                      links: seq<Link>, seen: set<string>, needsHuman: bool, ghost claims: seq<Claim>)
    returns (links': seq<Link>, seen': set<string>, needsHuman': bool)
    requires Indexes(byID, items)
    requires used.Length == |items| && Marks(used[..], links)
    requires Processed(items, claims, links, seen, needsHuman)
    modifies used
    ensures Processed(items, claims + [claim], links', seen', needsHuman')
    ensures Marks(used[..], links')
  {
    links', seen', needsHuman' := links, seen, needsHuman;
    if claim.id !in byID || claim.id in seen {
      ClaimRefused(items, claims, claim, links, seen, needsHuman);
      needsHuman' := true;
    } else {
      var j := byID[claim.id];
      var link := Link(claim.subTask, j, 100, true);
      ClaimAccepted(items, claims, claim, links, seen, needsHuman);
      StepKeepsLinked(links, link);
      links', seen' := links + [link], seen + {claim.id};
      used[j] := true;
    }
  }

  method ProcessClaims(items: seq<Item>, byID: map<string, nat>, t: nat, ids: seq<string>, used: array<bool>,
                       links: seq<Link>, seen: set<string>, needsHuman: bool, ghost claims: seq<Claim>)
    returns (links': seq<Link>, seen': set<string>, needsHuman': bool)
    requires Indexes(byID, items)
    requires used.Length == |items| && Marks(used[..], links)
    requires Processed(items, claims, links, seen, needsHuman)
    modifies used
    ensures Processed(items, claims + ClaimsIn(t, ids), links', seen', needsHuman')
    ensures Marks(used[..], links')
  {
    links', seen', needsHuman' := links, seen, needsHuman;
    assert claims + [] == claims;
    for i := 0 to |ids|
      invariant Processed(items, claims + ClaimsIn(t, ids[..i]), links', seen', needsHuman')
      invariant Marks(used[..], links')
    {
      var id := TrimSpace(ids[i]);
      ghost var before := claims + ClaimsIn(t, ids[..i]);
      MoreClaims(claims, t, ids, i);
      if id != "" {
        links', seen', needsHuman' := ProcessClaim(items, byID, Claim(t, id), used, links', seen', needsHuman', before);
      }
    }
    assert ids[..|ids|] == ids;
  }

  lemma MoreClaims(claims: seq<Claim>, t: nat, ids: seq<string>, i: nat)
    requires i < |ids|
    ensures TrimSpace(ids[i]) == "" ==> ClaimsIn(t, ids[..i + 1]) == ClaimsIn(t, ids[..i])
    ensures TrimSpace(ids[i]) != "" ==>
      claims + ClaimsIn(t, ids[..i + 1]) == (claims + ClaimsIn(t, ids[..i])) + [Claim(t, TrimSpace(ids[i]))]
  {
    assert ids[..i + 1][..i] == ids[..i];
    assert ClaimsIn(t, ids[..i]) + [] == ClaimsIn(t, ids[..i]);
  }

  lemma StepKeepsLinked(links: seq<Link>, link: Link)
    ensures forall p: nat :: ItemLinked(links + [link], p) <==> ItemLinked(links, p) || link.item == p
  {
    forall p: nat ensures ItemLinked(links + [link], p) <==> ItemLinked(links, p) || link.item == p {
      LinkedStays(links, link, p);
    }
  }

  lemma MoreTasks(subtasks: seq<SubTask>, t: nat)
    requires t < |subtasks|
    ensures Claims(subtasks[..t + 1]) == Claims(subtasks[..t]) + ClaimsIn(t, subtasks[t].checklistItemIDs)
  {
    assert subtasks[..t + 1][..t] == subtasks[..t];
  }

  method DeclaredMapping(subtasks: seq<SubTask>, items: seq<Item>) returns (r: Mapped)
    ensures DeclaredResult(subtasks, items, r)
  {
    var byID := ItemsByID(items);
    var used := new bool[|items|](_ => false);
    var links: seq<Link>, seen: set<string>, needsHuman := [], {}, false;
    for t := 0 to |subtasks|
      invariant Processed(items, Claims(subtasks[..t]), links, seen, needsHuman)
      invariant Marks(used[..], links)
    {
      MoreTasks(subtasks, t);
      links, seen, needsHuman := ProcessClaims(items, byID, t, subtasks[t].checklistItemIDs, used,
                                               links, seen, needsHuman, Claims(subtasks[..t]));
    }
    assert subtasks[..|subtasks|] == subtasks;
    var left := UnlinkedItems(items, used, links);
    var synced := !needsHuman && left == [];
    r := Mapped(links, [], left, needsHuman, synced,
      if needsHuman then BlockedIssue else if synced then SyncedChecklist else UnsyncedChecklist);
  }

  ghost predicate HasDeclarations(subtasks: seq<SubTask>) {
    exists t :: 0 <= t < |subtasks| && subtasks[t].checklistItemIDs != []
  }

  method AnyDeclarations(subtasks: seq<SubTask>) returns (any: bool)
    ensures any <==> HasDeclarations(subtasks)
  {
    for t := 0 to |subtasks|
      invariant forall u :: 0 <= u < t ==> subtasks[u].checklistItemIDs == []
    {
      if subtasks[t].checklistItemIDs != [] {
        return true;
      }
    }
    return false;
  }

  method BuildMapping(score: Scoring, issue: Option<seq<Item>>, subtasks: seq<SubTask>) returns (r: Mapped)
    ensures issue == None ==> r == Mapped([], [], [], true, false, BlockedIssue)
    ensures issue == Some([]) ==> r == Mapped([], [], [], false, false, DraftedIssue)
    ensures issue.Some? && issue.value != [] && subtasks == [] ==>
      r == Mapped([], [], seq(|issue.value|, j => j), false, false, PlannedIssue)
    ensures issue.Some? && issue.value != [] && subtasks != [] ==>
      if HasDeclarations(subtasks) then DeclaredResult(subtasks, issue.value, r)
      else GreedyResult(score, subtasks, issue.value, r)
  {
    if issue.None? {
      return Mapped([], [], [], true, false, BlockedIssue);
    }
    var items := issue.value;
    if items == [] {
      return Mapped([], [], [], false, false, DraftedIssue);
    }
    if subtasks == [] {
      return Mapped([], [], seq(|items|, j => j), false, false, PlannedIssue);
    }
    var declared := AnyDeclarations(subtasks);
    if declared {
      r := DeclaredMapping(subtasks, items);
    } else {
      r := GreedyMapping(score, subtasks, items);
    }
  }

  // ---------- What the declared mapping amounts to ----------

  ghost predicate DistinctIDs(items: seq<Item>) {
    forall i, j :: 0 <= i < j < |items| ==> items[i].id != items[j].id
  }

  /** Ids come from line numbers, so a parse never repeats one. */
  lemma ParsedIDsDistinct(md: Markdown, body: string)
    ensures DistinctIDs(Parsed(md, body))
  {
    var lines := Lines.Split(body);
    ItemsInOrder(md, lines, |lines|);
    ChecklistSync.ItemsAreLines(md, lines, |lines|);
    var items := Parsed(md, body);
    forall i, j | 0 <= i < j < |items| ensures items[i].id != items[j].id {
      if items[i].id == items[j].id {
        ItemIDInjective(items[i].line, items[j].line);
      }
    }
  }

  lemma {:induction false} ItemsInOrder(md: Markdown, lines: seq<string>, n: nat)
    requires n <= |lines|
    ensures forall i :: 0 <= i < |Items(md, lines, n)| ==> Items(md, lines, n)[i].line < n
    ensures InOrder(Items(md, lines, n))
  {
    if n == 0 {
    } else {
      ItemsInOrder(md, lines, n - 1);
      var before := Items(md, lines, n - 1);
      if Counts(md, lines, n - 1) {
        assert Items(md, lines, n) == before + [ItemAt(md, lines, n - 1)];
      }
    }
  }

  ghost predicate InOrder(items: seq<Item>) {
    forall i, j :: 0 <= i < j < |items| ==> items[i].line < items[j].line
  }

  lemma ItemIDInjective(m: nat, n: nat)
    requires ItemID(m) == ItemID(n)
    ensures m == n
  {
    assert ItemID(m)[5..] == Dec(m) && ItemID(n)[5..] == Dec(n);
    DecInjective(m, n);
  }

  lemma ItemWithIs(items: seq<Item>, j: nat)
    requires DistinctIDs(items) && j < |items|
    ensures ItemWith(items, items[j].id) == j
  {
  }

  /** Every link comes from the first claim of its item's id. */
  lemma {:induction false} LinkIsFirstClaim(items: seq<Item>, claims: seq<Claim>, k: nat) returns (c: nat)
    requires k < |DeclaredLinks(items, claims)|
    ensures var link := DeclaredLinks(items, claims)[k];
      && c < |claims| && link.subTask == claims[c].subTask && link.item == ItemWith(items, claims[c].id)
      && !Claimed(claims[..c], claims[c].id)
  {
    var n := |claims| - 1;
    ClaimAdded(items, claims[..n], claims[n]);
    assert claims == claims[..n] + [claims[n]];
    if k < |DeclaredLinks(items, claims[..n])| {
      c := LinkIsFirstClaim(items, claims[..n], k);
      assert claims[..n][..c] == claims[..c];
    } else {
      c := n;
    }
  }

  /** With distinct ids, the linked items are the claimed ones. */
  lemma {:induction false} LinkedIsClaimed(items: seq<Item>, claims: seq<Claim>, j: nat)
    requires DistinctIDs(items) && j < |items|
    ensures ItemLinked(DeclaredLinks(items, claims), j) <==> Claimed(claims, items[j].id)
  {
    if claims == [] {
    } else {
      var n := |claims| - 1;
      var before, claim := claims[..n], claims[n];
      assert claims == before + [claim];
      LinkedIsClaimed(items, before, j);
      ClaimAdded(items, before, claim);
      ItemWithIs(items, j);
      var i := ItemWith(items, claim.id);
      if i >= 0 {
        LinkedStays(DeclaredLinks(items, before), Link(claim.subTask, i, 100, true), j);
      }
    }
  }

  /** "Synced" by declarations: every claim names an item, none names one twice, and every item is claimed. */
  lemma DeclaredSyncedExactly(subtasks: seq<SubTask>, items: seq<Item>, r: Mapped)
    requires DeclaredResult(subtasks, items, r) && DistinctIDs(items)
    ensures var claims := Claims(subtasks);
      r.synced <==>
        && (forall k :: 0 <= k < |claims| ==> exists j :: 0 <= j < |items| && items[j].id == claims[k].id)
        && (forall i, k :: 0 <= i < k < |claims| ==> claims[i].id != claims[k].id)
        && (forall j :: 0 <= j < |items| ==> Claimed(claims, items[j].id))
  {
    var claims := Claims(subtasks);
    forall j | 0 <= j < |items| ensures ItemLinked(r.links, j) <==> Claimed(claims, items[j].id) {
      LinkedIsClaimed(items, claims, j);
    }
    TroubledExactly(items, claims);
    assert r.unmappedItems == [] <==> forall j :: 0 <= j < |items| ==> ItemLinked(r.links, j) by {
      if r.unmappedItems != [] {
        assert r.unmappedItems[0] in r.unmappedItems;
      }
    }
  }

  lemma TroubledExactly(items: seq<Item>, claims: seq<Claim>)
    ensures !Troubled(items, claims) <==>
      && (forall k :: 0 <= k < |claims| ==> exists j :: 0 <= j < |items| && items[j].id == claims[k].id)
      && (forall i, k :: 0 <= i < k < |claims| ==> claims[i].id != claims[k].id)
  {
    if !Troubled(items, claims) {
      forall k | 0 <= k < |claims| ensures exists j :: 0 <= j < |items| && items[j].id == claims[k].id {
        assert items[ItemWith(items, claims[k].id)].id == claims[k].id;
      }
      forall i, k | 0 <= i < k < |claims| ensures claims[i].id != claims[k].id {
        assert claims[..k][i] == claims[i];
        assert !Claimed(claims[..k], claims[k].id);
      }
    } else {
      var k :| 0 <= k < |claims| && (ItemWith(items, claims[k].id) < 0 || Claimed(claims[..k], claims[k].id));
      if ItemWith(items, claims[k].id) >= 0 {
        var i :| 0 <= i < k && claims[..k][i].id == claims[k].id;
        assert claims[i].id == claims[k].id;
      }
    }
  }

  lemma {:induction false} ClaimedIsDeclared(subtasks: seq<SubTask>, id: string)
    ensures Claimed(Claims(subtasks), id) <==> id in ChecklistSync.Declared(subtasks)
  {
    if subtasks == [] {
    } else {
      var n := |subtasks| - 1;
      var before, ids := subtasks[..n], subtasks[n].checklistItemIDs;
      ClaimedIsDeclared(before, id);
      ClaimedInIsDeclared(n, ids, id);
      ClaimedEither(Claims(before), ClaimsIn(n, ids), id);
    }
  }

  lemma {:induction false} ClaimedInIsDeclared(t: nat, ids: seq<string>, id: string)
    ensures Claimed(ClaimsIn(t, ids), id) <==> id in ChecklistSync.DeclaredIn(ids)
  {
    if ids == [] {
    } else {
      var n := |ids| - 1;
      var last := TrimSpace(ids[n]);
      ClaimedInIsDeclared(t, ids[..n], id);
      ClaimedEither(ClaimsIn(t, ids[..n]), if last == "" then [] else [Claim(t, last)], id);
      assert last != "" ==> [Claim(t, last)][0].id == last;
    }
  }

  lemma ClaimedEither(a: seq<Claim>, b: seq<Claim>, id: string)
    ensures Claimed(a + b, id) <==> Claimed(a, id) || Claimed(b, id)
  {
    assert forall k :: 0 <= k < |a| ==> (a + b)[k] == a[k];
    assert forall k :: 0 <= k < |b| ==> (a + b)[|a| + k] == b[k];
  }

  /** A plan whose declared mapping is synced completes the issue's checklist once all its sub-tasks are done. */
  lemma SyncedMappingCompletes(md: Markdown, similar: (string, string) -> bool, body: string,
                               plan: seq<SubTask>, r: Mapped)
    requires DeclaredResult(plan, Parsed(md, body), r) && r.synced
    requires ChecklistCoverage.AllDone(plan) && Parsed(md, body) != []
    ensures ChecklistCoverage.AllChecked(
      Parsed(md, ChecklistSync.Synced(md, body, ChecklistSync.SyncRule(similar, plan))))
  {
    var items := Parsed(md, body);
    ParsedIDsDistinct(md, body);
    DeclaredSyncedExactly(plan, items, r);
    ChecklistCoverage.DoneDeclares(plan, plan);
    forall j | 0 <= j < |items| ensures items[j].id in ChecklistSync.Declared(plan) {
      ClaimedIsDeclared(plan, items[j].id);
    }
    assert items[0].id in ChecklistSync.Declared(plan);
    ChecklistCoverage.SyncCompletesExactly(md, similar, body, plan);
  }
}

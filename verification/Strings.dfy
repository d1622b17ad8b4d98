/** The string operations of the Go standard library that the model needs. */
module Strings {

  /** unicode.IsSpace. */
  predicate IsSpace(c: char) {
    || c in "\t\n\r "
    || c as int in {11, 12, 0x85, 0xA0, 0x1680, 0x2028, 0x2029, 0x202F, 0x205F, 0x3000}
    || 0x2000 <= c as int <= 0x200A
  }

  function TrimLeft(s: string): string {
    if s != [] && IsSpace(s[0]) then TrimLeft(s[1..]) else s
  }

  function TrimRight(s: string): string {
    if s != [] && IsSpace(s[|s| - 1]) then TrimRight(s[..|s| - 1]) else s
  }

  /** strings.TrimSpace. */
  function TrimSpace(s: string): string {
    TrimRight(TrimLeft(s))
  }

  lemma TrimSpaceId(s: string)
    requires s != [] && !IsSpace(s[0]) && !IsSpace(s[|s| - 1])
    ensures TrimSpace(s) == s
  {
  }

  lemma {:induction false} TrimRightEnds(s: string)
    ensures var t := TrimRight(s);
      t == [] || (!IsSpace(t[|t| - 1]) && t[0] == s[0])
  {
    if s != [] && IsSpace(s[|s| - 1]) {
      TrimRightEnds(s[..|s| - 1]);
    }
  }

  lemma {:induction false} TrimLeftStarts(s: string)
    ensures TrimLeft(s) == [] || !IsSpace(TrimLeft(s)[0])
  {
    if s != [] && IsSpace(s[0]) {
      TrimLeftStarts(s[1..]);
    }
  }

  /** Trimming twice is trimming once. */
  lemma TrimSpaceTwice(s: string)
    ensures TrimSpace(TrimSpace(s)) == TrimSpace(s)
  {
    TrimLeftStarts(s);
    TrimRightEnds(TrimLeft(s));
  }

  predicate IsDigit(c: char) {
    '0' <= c <= '9'
  }

  function Digit(d: nat): (c: char)
    requires d < 10
    ensures IsDigit(c) && c as int == '0' as int + d
  {
    ('0' as int + d) as char
  }

  /** Decimal notation. */
  function Dec(n: nat): (s: string)
    ensures s != [] && forall i :: 0 <= i < |s| ==> IsDigit(s[i])
  {
    if n < 10 then [Digit(n)] else Dec(n / 10) + [Digit(n % 10)]
  }

  lemma {:induction false} DecInjective(m: nat, n: nat)
    requires Dec(m) == Dec(n)
    ensures m == n
    decreases m
  {
    var s, t := Dec(m), Dec(n);
    assert s[|s| - 1] == t[|t| - 1];
    if m < 10 || n < 10 {
    } else {
      assert Dec(m / 10) == s[..|s| - 1] && Dec(n / 10) == t[..|t| - 1];
      DecInjective(m / 10, n / 10);
    }
  }

  // ---------- Sorting ----------

  /** The order of Go's string comparison. */
  predicate StringBefore(a: string, b: string) {
    b != [] && (a == [] || a[0] < b[0] || (a[0] == b[0] && StringBefore(a[1..], b[1..])))
  }

  lemma {:induction false} StringBeforeAsymmetric(a: string, b: string)
    requires StringBefore(a, b)
    ensures !StringBefore(b, a)
  {
    if a != [] && a[0] == b[0] {
      StringBeforeAsymmetric(a[1..], b[1..]);
    }
  }

  lemma {:induction false} NotBeforeTransitive(a: string, b: string, c: string)
    requires !StringBefore(b, a) && !StringBefore(c, b)
    ensures !StringBefore(c, a)
  {
    if a != [] && b != [] && c != [] && a[0] == b[0] == c[0] {
      NotBeforeTransitive(a[1..], b[1..], c[1..]);
    }
  }

  ghost predicate Ordered(list: seq<string>) {
    forall i, j :: 0 <= i < j < |list| ==> !StringBefore(list[j], list[i])
  }

  function InsertString(s: string, sorted: seq<string>): seq<string> {
    if sorted == [] || StringBefore(s, sorted[0]) then [s] + sorted
    else [sorted[0]] + InsertString(s, sorted[1..])
  }

  /** sort.Strings. */
  function SortStrings(list: seq<string>): (sorted: seq<string>)
    ensures sorted == [] <==> list == []
    decreases |list|
  {
    if list == [] then [] else InsertString(list[|list| - 1], SortStrings(list[..|list| - 1]))
  }

  lemma OrderedFrom(s: string, rest: seq<string>)
    requires Ordered(rest) && forall x :: x in rest ==> !StringBefore(x, s)
    ensures Ordered([s] + rest)
  {
  }

  lemma {:induction false} InsertStringSorts(s: string, sorted: seq<string>)
    requires Ordered(sorted)
    ensures Ordered(InsertString(s, sorted))
    ensures multiset(InsertString(s, sorted)) == multiset(sorted) + multiset{s}
  {
    if sorted == [] {
    } else if StringBefore(s, sorted[0]) {
      StringBeforeAsymmetric(s, sorted[0]);
      forall x | x in sorted ensures !StringBefore(x, s) {
        if x != sorted[0] {
          NotBeforeTransitive(s, sorted[0], x);
        }
      }
      OrderedFrom(s, sorted);
    } else {
      assert sorted == [sorted[0]] + sorted[1..];
      InsertStringSorts(s, sorted[1..]);
      var rest := InsertString(s, sorted[1..]);
      forall x | x in rest ensures !StringBefore(x, sorted[0]) {
        assert x in multiset(sorted[1..]) + multiset{s};
      }
      OrderedFrom(sorted[0], rest);
    }
  }

  lemma {:induction false} SortStringsSorts(list: seq<string>)
    ensures Ordered(SortStrings(list)) && multiset(SortStrings(list)) == multiset(list)
    decreases |list|
  {
    if list == [] {
    } else {
      SortStringsSorts(list[..|list| - 1]);
      InsertStringSorts(list[|list| - 1], SortStrings(list[..|list| - 1]));
      assert list == list[..|list| - 1] + [list[|list| - 1]];
    }
  }

  lemma {:induction false} DistinctAreSingle(list: seq<string>, s: string)
    requires forall i, j :: 0 <= i < j < |list| ==> list[i] != list[j]
    ensures multiset(list)[s] <= 1
  {
    if list == [] {
    } else {
      assert list == [list[0]] + list[1..];
      DistinctAreSingle(list[1..], s);
      if s == list[0] {
        assert s !in list[1..];
      }
    }
  }

  /** A list with the members of another that has no repetitions, and no more of each, has none either. */
  lemma SameMembersDistinct(a: seq<string>, b: seq<string>)
    requires multiset(a) == multiset(b)
    requires forall i, j :: 0 <= i < j < |a| ==> a[i] != a[j]
    ensures forall i, j :: 0 <= i < j < |b| ==> b[i] != b[j]
    ensures forall s :: s in b <==> s in a
  {
    forall i, j | 0 <= i < j < |b| ensures b[i] != b[j] {
      DistinctAreSingle(a, b[i]);
      assert b == b[..i] + [b[i]] + b[i + 1..j] + [b[j]] + b[j + 1..];
    }
    forall s ensures s in b <==> s in a {
      assert s in multiset(a) <==> s in multiset(b);
    }
  }
}

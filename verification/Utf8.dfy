/** UTF-8 as section 3 of RFC 3629 defines it: encoding, well-formed texts, safe cut points. */
module Utf8 {
  import opened State

  newtype Rune = x: int | 0 <= x < 0x110000 && !(0xD800 <= x < 0xE000)

  function Encode(r: Rune): (t: Text)
    ensures 1 <= |t| <= 4
  {
    var x := r as int;
    if x < 0x80 then [x as byte]
    else if x < 0x800 then [(0xC0 + x / 64) as byte, (0x80 + x % 64) as byte]
    else if x < 0x10000 then
      [(0xE0 + x / 4096) as byte, (0x80 + x / 64 % 64) as byte, (0x80 + x % 64) as byte]
    else
      [(0xF0 + x / 262144) as byte, (0x80 + x / 4096 % 64) as byte,
       (0x80 + x / 64 % 64) as byte, (0x80 + x % 64) as byte]
  }

  function EncodeAll(rs: seq<Rune>): (t: Text)
    ensures |rs| <= |t| <= 4 * |rs|
  {
    if rs == [] then [] else Encode(rs[0]) + EncodeAll(rs[1..])
  }

  predicate Tail(b: byte) {
    0x80 <= b <= 0xBF
  }

  /** The length of the well-formed sequence at the head of a text, or 0. */
  function HeadLength(t: Text): (n: nat)
    ensures n <= |t|
    ensures forall i :: 0 < i < n ==> Tail(t[i])
  {
    if t == [] then 0
    else if t[0] <= 0x7F then 1
    else if |t| >= 2 && 0xC2 <= t[0] <= 0xDF && Tail(t[1]) then 2
    else if |t| >= 3 && 0xE0 <= t[0] <= 0xEF && Tail(t[1]) && Tail(t[2])
            && (t[0] == 0xE0 ==> t[1] >= 0xA0) && (t[0] == 0xED ==> t[1] <= 0x9F) then 3
    else if |t| >= 4 && 0xF0 <= t[0] <= 0xF4 && Tail(t[1]) && Tail(t[2]) && Tail(t[3])
            && (t[0] == 0xF0 ==> t[1] >= 0x90) && (t[0] == 0xF4 ==> t[1] <= 0x8F) then 4
    else 0
  }

  predicate Valid(t: Text)
    decreases |t|
  {
    t == [] || (HeadLength(t) > 0 && Valid(t[HeadLength(t)..]))
  }

  lemma HeadOfConcat(a: Text, b: Text)
    requires HeadLength(a) > 0
    ensures HeadLength(a + b) == HeadLength(a)
  {
  }

  lemma {:induction false} ValidConcat(a: Text, b: Text)
    requires Valid(a) && Valid(b)
    ensures Valid(a + b)
    decreases |a|
  {
    if a == [] {
      assert a + b == b;
    } else {
      HeadOfConcat(a, b);
      var n := HeadLength(a);
      assert (a + b)[n..] == a[n..] + b;
      ValidConcat(a[n..], b);
    }
  }

  /** A newline is never part of a longer sequence, so the text may be cut after it. */
  lemma {:induction false} CutAfterNewline(t: Text, i: nat)
    requires Valid(t) && i < |t| && t[i] == NEWLINE
    ensures Valid(t[i + 1..])
    decreases |t|
  {
    var n := HeadLength(t);
    if i == 0 {
    } else {
      assert i >= n;
      assert t[n..][i - n] == NEWLINE;
      CutAfterNewline(t[n..], i - n);
      assert t[n..][i - n + 1..] == t[i + 1..];
    }
  }

  lemma EncodeHead(r: Rune)
    ensures HeadLength(Encode(r)) == |Encode(r)|
  {
    var x := r as int;
    if x < 0x80 {
    } else if x < 0x800 {
    } else if x < 0x10000 {
      assert x / 4096 == 0 ==> x / 64 % 64 >= 32;
      assert x / 4096 == 13 ==> x / 64 % 64 < 32;
    } else {
      assert x / 262144 == 0 ==> x / 4096 % 64 >= 16;
      assert x / 262144 == 4 ==> x / 4096 % 64 < 16;
    }
  }

  lemma {:induction false} EncodeAllValid(rs: seq<Rune>)
    ensures Valid(EncodeAll(rs))
  {
    if rs == [] {
    } else {
      var h := Encode(rs[0]);
      EncodeHead(rs[0]);
      assert h[HeadLength(h)..] == [];
      assert Valid(h);
      EncodeAllValid(rs[1..]);
      ValidConcat(h, EncodeAll(rs[1..]));
    }
  }
}

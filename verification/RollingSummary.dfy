/**
  The rolling summary: each finished sub-task adds one conclusion, and the text is
  cut from the front, at a line boundary, once it exceeds its byte cap.
 */
module RollingSummary {
  import opened State
  import opened Utf8

  const CHEAP_PATH_MAX_BYTES: nat := 3072
  const EXPENSIVE_PATH_TRIGGER_BYTES: nat := 6144
  const EXPENSIVE_PATH_TRIGGER_COUNT := 5
  const CONCLUSION_MAX_RUNES: nat := 600
  const ELLIPSIS: Rune := 0x2026

  function TruncateRunes(rs: seq<Rune>, max: nat): seq<Rune> {
    if |rs| <= max then rs else rs[..max] + [ELLIPSIS]
  }

  /** What one result contributes: the extracted text, cut to its rune budget. */
  function Conclusion(extracted: seq<Rune>): Text {
    EncodeAll(TruncateRunes(extracted, CONCLUSION_MAX_RUNES))
  }

  lemma {:induction false} EncodeAllConcat(a: seq<Rune>, b: seq<Rune>)
    ensures EncodeAll(a + b) == EncodeAll(a) + EncodeAll(b)
  {
    if a == [] {
      assert a + b == b;
    } else {
      assert (a + b)[1..] == a[1..] + b;
      EncodeAllConcat(a[1..], b);
    }
  }

  /** A conclusion is well-formed UTF-8 of at most 4 * 600 + 3 bytes. */
  lemma ConclusionBounded(extracted: seq<Rune>)
    ensures |Conclusion(extracted)| <= 4 * CONCLUSION_MAX_RUNES + 3 < CHEAP_PATH_MAX_BYTES
    ensures Valid(Conclusion(extracted))
    ensures Conclusion(extracted) == [] <==> extracted == []
  {
    EncodeAllValid(TruncateRunes(extracted, CONCLUSION_MAX_RUNES));
    if |extracted| > CONCLUSION_MAX_RUNES {
      EncodeAllConcat(extracted[..CONCLUSION_MAX_RUNES], [ELLIPSIS]);
      assert [ELLIPSIS][1..] == [];
      assert EncodeAll([ELLIPSIS]) == Encode(ELLIPSIS) + [];
      assert |Encode(ELLIPSIS)| == 3;
    }
  }

  /** The position of the first newline, or -1. */
  function IndexNewline(t: Text): (i: int)
    ensures -1 <= i < |t|
    ensures i >= 0 ==> t[i] == NEWLINE
    ensures forall j :: 0 <= j < (if i >= 0 then i else |t|) ==> t[j] != NEWLINE
  {
    if t == [] then -1
    else if t[0] == NEWLINE then 0
    else var i := IndexNewline(t[1..]); if i >= 0 then i + 1 else -1
  }

  /** Text and a further line. */
  function AddLine(log: Text, line: Text): Text {
    if line == [] then log else if log == [] then line else log + [NEWLINE] + line
  }

  /** What follows the first newline, or all of it when there is none. */
  function AfterNewline(tail: Text): Text {
    tail[IndexNewline(tail) + 1..]
  }

  function Trimmed(t: Text, cap: nat): Text {
    if |t| <= cap then t else AfterNewline(t[|t| - cap..])
  }

  /** Cutting t at m keeps t from the first line that starts after m. */
  lemma CutAt(t: Text, m: nat, p: nat) returns (q: nat)
    requires m <= p < |t| && t[p] == NEWLINE
    ensures m <= q <= p && t[q] == NEWLINE
    ensures forall j :: m <= j < q ==> t[j] != NEWLINE
    ensures AfterNewline(t[m..]) == t[q + 1..]
  {
    var tail := t[m..];
    assert tail[p - m] == NEWLINE;
    q := m + IndexNewline(tail);
    forall j | m <= j < q ensures t[j] != NEWLINE {
      assert tail[j - m] == t[j];
    }
    assert tail[q - m + 1..] == t[q + 1..];
  }

  function Appended(accumulated: Text, line: Text): Text {
    if line == [] then accumulated else Trimmed(AddLine(accumulated, line), CHEAP_PATH_MAX_BYTES)
  }

  /** The FIFO truncation: keep the tail, then drop its partial first line. */
  method Trim(text: Text, cap: nat) returns (t: Text)
    ensures t == Trimmed(text, cap) && |t| <= cap
  {
    t := text;
    if |t| > cap {
      t := t[|t| - cap..];
      var idx := IndexNewline(t);
      if idx >= 0 {
        t := t[idx + 1..];
      }
    }
  }

  /** AppendResult; the extraction of the conclusion is the caller's parameter. */
  method AppendResult(extract: Text -> seq<Rune>, accumulated: Text, result: Text, completed: int)
    returns (updated: Text, needsCompression: bool)
    ensures updated == Appended(accumulated, Conclusion(extract(result)))
    ensures needsCompression <==> extract(result) != [] && completed >= EXPENSIVE_PATH_TRIGGER_COUNT
  {
    var conclusion := Conclusion(extract(result));
    ConclusionBounded(extract(result));
    if conclusion == [] {
      return accumulated, false;
    }
    updated := accumulated;
    if updated != [] {
      updated := updated + [NEWLINE];
    }
    updated := updated + conclusion;
    assert updated == AddLine(accumulated, conclusion);
    updated := Trim(updated, CHEAP_PATH_MAX_BYTES);
    // The byte trigger is dead: the text has just been cut to half of it.
    needsCompression := |updated| > EXPENSIVE_PATH_TRIGGER_BYTES || completed >= EXPENSIVE_PATH_TRIGGER_COUNT;
  }

  // ---------- The summary as a window over the whole log ----------

  function FullLog(start: Text, results: seq<seq<Rune>>): Text
    decreases |results|
  {
    if results == [] then start
    else AddLine(FullLog(start, results[..|results| - 1]), Conclusion(results[|results| - 1]))
  }

  function Summary(start: Text, results: seq<seq<Rune>>): Text
    decreases |results|
  {
    if results == [] then start
    else Appended(Summary(start, results[..|results| - 1]), Conclusion(results[|results| - 1]))
  }

  predicate LineStart(log: Text, k: nat)
    requires k <= |log|
  {
    k == 0 || log[k - 1] == NEWLINE
  }

  /** The text is the log from line start k on, and no longer line-suffix is under the cap. */
  ghost predicate Window(log: Text, text: Text, k: nat, cap: nat) {
    && k <= |log| && text == log[k..]
    && |text| <= cap
    && (text == [] <==> log == [])
    && LineStart(log, k)
    && forall j | 0 <= j < k && LineStart(log, j) :: |log| - j >= cap
  }

  /** A line that fits: the window just grows. */
  lemma WindowGrows(log: Text, text: Text, k: nat, line: Text, cap: nat)
    requires Window(log, text, k, cap) && log != [] && line != []
    ensures k < |log| && AddLine(text, line) == AddLine(log, line)[k..]
    ensures forall j | 0 <= j < k && LineStart(AddLine(log, line), j) :: |AddLine(log, line)| - j >= cap
    ensures |AddLine(text, line)| <= cap ==> Window(AddLine(log, line), AddLine(text, line), k, cap)
  {
    var log' := AddLine(log, line);
    forall j | 0 <= j < k && LineStart(log', j) ensures |log'| - j >= cap {
      assert LineStart(log, j);
    }
  }

  /** A text over the cap: the cut lands on the first line start under it. */
  lemma WindowShrinks(log: Text, text: Text, k: nat, line: Text, cap: nat) returns (k': nat)
    requires k <= |log| && text == log[k..] && |text| > cap > |line| > 0
    requires log[|log| - |line| - 1] == NEWLINE
    requires forall j | 0 <= j < k && LineStart(log, j) :: |log| - j >= cap
    ensures Window(log, Trimmed(text, cap), k', cap)
    ensures k' <= |log| - |line| && |Trimmed(text, cap)| < cap
  {
    var m, p := |log| - cap, |log| - |line| - 1;
    assert text[|text| - cap..] == log[m..];
    var q := CutAt(log, m, p);
    k' := q + 1;
    assert Trimmed(text, cap) == log[k'..];
    forall j | m < j < k' ensures !LineStart(log, j) {
      var i := j - 1;
      assert log[i] != NEWLINE;
    }
  }

  lemma WindowStep(log: Text, text: Text, k: nat, line: Text) returns (k': nat)
    requires Window(log, text, k, CHEAP_PATH_MAX_BYTES) && |line| < CHEAP_PATH_MAX_BYTES
    ensures Window(AddLine(log, line), Appended(text, line), k', CHEAP_PATH_MAX_BYTES)
    ensures k' <= |AddLine(log, line)| - |line|
  {
    if line == [] {
      k' := k;
    } else if log == [] {
      k' := 0;
    } else {
      WindowGrows(log, text, k, line, CHEAP_PATH_MAX_BYTES);
      k' := k;
      if |AddLine(text, line)| > CHEAP_PATH_MAX_BYTES {
        k' := WindowShrinks(AddLine(log, line), AddLine(text, line), k, line, CHEAP_PATH_MAX_BYTES);
      }
    }
  }

  lemma EndsWithLine(log: Text, line: Text)
    ensures var longer := AddLine(log, line);
      |line| <= |longer| && longer[|longer| - |line|..] == line
  {
  }

  /**
    The main result, for every sequence of results: the summary is at most 3072
    bytes, starts at a line of the full log and runs to its end, drops a line only
    when keeping it would reach the cap, and ends with the whole newest conclusion.
   */
  lemma {:induction false} SummaryIsWindow(start: Text, results: seq<seq<Rune>>) returns (k: nat)
    requires |start| <= CHEAP_PATH_MAX_BYTES
    ensures Window(FullLog(start, results), Summary(start, results), k, CHEAP_PATH_MAX_BYTES)
    ensures results != [] ==>
      var last := Conclusion(results[|results| - 1]);
      var text := Summary(start, results);
      |last| <= |text| && text[|text| - |last|..] == last
    decreases |results|
  {
    if results == [] {
      return 0;
    }
    var n := |results| - 1;
    var j := SummaryIsWindow(start, results[..n]);
    ConclusionBounded(results[n]);
    k := WindowStep(FullLog(start, results[..n]), Summary(start, results[..n]), j, Conclusion(results[n]));
    EndsWithLine(FullLog(start, results[..n]), Conclusion(results[n]));
  }

  lemma TrimmedValid(t: Text, line: Text, cap: nat)
    requires Valid(t) && |line| < cap
    requires |line| < |t| ==> t[|t| - |line| - 1] == NEWLINE
    ensures Valid(Trimmed(t, cap))
  {
    if |t| > cap {
      var q := CutAt(t, |t| - cap, |t| - |line| - 1);
      CutAfterNewline(t, q);
    }
  }

  lemma AddLineValid(text: Text, line: Text)
    requires Valid(text) && Valid(line)
    ensures Valid(AddLine(text, line))
  {
    assert Valid([NEWLINE]) by { assert [NEWLINE][1..] == []; }
    ValidConcat(text, [NEWLINE]);
    ValidConcat(text + [NEWLINE], line);
  }

  lemma AppendStaysValid(text: Text, line: Text)
    requires Valid(text) && Valid(line) && |line| < CHEAP_PATH_MAX_BYTES
    ensures Valid(Appended(text, line))
  {
    AddLineValid(text, line);
    if line != [] {
      TrimmedValid(AddLine(text, line), line, CHEAP_PATH_MAX_BYTES);
    }
  }

  /** No append ever cuts a UTF-8 sequence in two. */
  lemma {:induction false} SummaryStaysValid(start: Text, results: seq<seq<Rune>>)
    requires Valid(start)
    ensures Valid(Summary(start, results))
    decreases |results|
  {
    if results == [] {
    } else {
      var n := |results| - 1;
      var text, last := Summary(start, results[..n]), Conclusion(results[n]);
      SummaryStaysValid(start, results[..n]);
      ConclusionBounded(results[n]);
      AppendStaysValid(text, last);
    }
  }
}

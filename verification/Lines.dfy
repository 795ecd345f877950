/** Lines between ECMAScript's terminators (section 12.3 of ECMA-262), CRLF being one break (ascii-only-output.ts). */
module Lines {
  import opened CodeUnits

  /** A line break ends right before offset `i`. */
  predicate BreakEnd(code: Text, i: nat)
    requires i <= |code|
  {
    i > 0 && Terminator(code[i - 1])
    && !(code[i - 1] == CARRIAGE_RETURN && i < |code| && code[i] == LINE_FEED)
  }

  /** The line that offset `x` is on: how many breaks end at or before it. */
  function LineOf(code: Text, x: nat): nat
    requires x <= |code|
  {
    if x == 0 then 0 else LineOf(code, x - 1) + if BreakEnd(code, x) then 1 else 0
  }

  /** Where the lines that start at or before offset `x` start. */
  function StartsUpTo(code: Text, x: nat): seq<nat>
    requires x <= |code|
  {
    if x == 0 then [0] else StartsUpTo(code, x - 1) + if BreakEnd(code, x) then [x] else []
  }

  function LineStarts(code: Text): seq<nat>
  {
    StartsUpTo(code, |code|)
  }

  method LineStartOffsets(code: Text) returns (starts: seq<nat>)
    ensures starts == LineStarts(code)
  {
    starts := [0];
    for index := 0 to |code|
      invariant starts == StartsUpTo(code, index)
    {
      var unit := code[index];
      if unit == CARRIAGE_RETURN && index + 1 < |code| && code[index + 1] == LINE_FEED {
        continue;
      }
      if unit == LINE_FEED || unit == CARRIAGE_RETURN || Separator(unit) {
        starts := starts + [index + 1];
      }
    }
  }

  ghost predicate Increasing(starts: seq<nat>)
  {
    forall i, j :: 0 <= i < j < |starts| ==> starts[i] < starts[j]
  }

  /** Line `LineOf(code, x)` is the last one that starts at or before `x`. */
  lemma {:induction false} StartsCount(code: Text, x: nat)
    requires x <= |code|
    ensures |StartsUpTo(code, x)| == LineOf(code, x) + 1
    ensures Increasing(StartsUpTo(code, x)) && StartsUpTo(code, x)[0] == 0
    ensures forall i :: 0 <= i < |StartsUpTo(code, x)| ==> StartsUpTo(code, x)[i] <= x
  {
    if x > 0 { StartsCount(code, x - 1); }
  }

  lemma {:induction false} StartsPrefix(code: Text, x: nat, y: nat)
    requires x <= y <= |code|
    ensures StartsUpTo(code, x) <= StartsUpTo(code, y)
    ensures forall i :: |StartsUpTo(code, x)| <= i < |StartsUpTo(code, y)| ==> StartsUpTo(code, y)[i] > x
    decreases y
  {
    if x < y { StartsPrefix(code, x, y - 1); }
  }

  /** The start of the line that `x` is on, and where the next one starts. */
  lemma {:induction false} LineBounds(code: Text, x: nat)
    requires x <= |code|
    ensures var k := LineOf(code, x); var starts := LineStarts(code);
      && Increasing(starts) && k < |starts|
      && starts[k] <= x && (k + 1 < |starts| ==> x < starts[k + 1])
  {
    StartsCount(code, x);
    StartsCount(code, |code|);
    StartsPrefix(code, x, |code|);
    assert StartsUpTo(code, x)[LineOf(code, x)] == LineStarts(code)[LineOf(code, x)];
  }

  /** Each start is on its own line. */
  lemma {:induction false} StartIsOnItsLine(code: Text, x: nat, k: nat)
    requires x <= |code| && k < |StartsUpTo(code, x)|
    ensures StartsUpTo(code, x)[k] <= x
    ensures LineOf(code, StartsUpTo(code, x)[k]) == k
    ensures k > 0 ==> BreakEnd(code, StartsUpTo(code, x)[k])
  {
    StartsCount(code, x);
    if x > 0 {
      if k < |StartsUpTo(code, x - 1)| {
        StartIsOnItsLine(code, x - 1, k);
      } else {
        StartsCount(code, x - 1);
      }
    }
  }

  method LineIndexOf(lineStarts: seq<nat>, offset: nat) returns (low: nat)
    requires lineStarts != [] && Increasing(lineStarts) && lineStarts[0] <= offset
    ensures low < |lineStarts| && lineStarts[low] <= offset
    ensures low + 1 < |lineStarts| ==> offset < lineStarts[low + 1]
  {
    low := 0;
    var high := |lineStarts| - 1;
    while low < high
      invariant 0 <= low <= high < |lineStarts|
      invariant lineStarts[low] <= offset
      invariant high + 1 < |lineStarts| ==> offset < lineStarts[high + 1]
    {
      var middle := (low + high + 1) / 2;
      if lineStarts[middle] <= offset { low := middle; } else { high := middle - 1; }
    }
  }

  /** The search agrees with counting terminators. */
  lemma {:induction false} LineIndexIsLineOf(code: Text, x: nat, low: nat)
    requires x <= |code| && low < |LineStarts(code)| && LineStarts(code)[low] <= x
    requires low + 1 < |LineStarts(code)| ==> x < LineStarts(code)[low + 1]
    ensures low == LineOf(code, x)
  {
    LineBounds(code, x);
  }

  // ------------------------------------------------------ the lines as text

  /** The line terminators, and the sequences that end a line (section 12.3 of ECMA-262). */
  const TERMINATORS: set<int> := {0x0a, 0x0d, 0x2028, 0x2029}

  predicate EndsLine(text: Text)
  {
    text == [0x0a] || text == [0x0d] || text == [0x0d, 0x0a] || text == [0x2028] || text == [0x2029]
  }

  ghost predicate Unbroken(code: Text, from: nat, end: nat)
    requires end <= |code|
  {
    forall i :: from <= i < end ==> code[i] !in TERMINATORS
  }

  /** From `from` to `end` there is text without a terminator, then one sequence that ends the line. */
  ghost predicate WholeLine(code: Text, from: nat, end: nat)
    requires end <= |code|
  {
    exists n: nat :: from <= n < end && Unbroken(code, from, n) && EndsLine(code[n..end])
  }

  lemma {:induction false} NoBreakInside(code: Text, k: nat, i: nat)
    requires k < |LineStarts(code)| && LineStarts(code)[k] < i <= |code|
    requires k + 1 < |LineStarts(code)| ==> i < LineStarts(code)[k + 1]
    ensures !BreakEnd(code, i)
  {
    LineIndexIsLineOf(code, i, k);
    LineIndexIsLineOf(code, i - 1, k);
  }

  lemma TerminatorIsListed(u: Unit)
    ensures Terminator(u) <==> u in TERMINATORS
  {
  }

  /** Cut at its starts, the text falls into lines that each end in one line break, but for the last, which has none. */
  lemma {:induction false} StartsCutLines(code: Text, k: nat)
    requires k < |LineStarts(code)|
    ensures LineStarts(code)[0] == 0 && LineStarts(code)[k] <= |code|
    ensures k + 1 < |LineStarts(code)| ==>
      var end := LineStarts(code)[k + 1];
      && LineStarts(code)[k] < end <= |code| && WholeLine(code, LineStarts(code)[k], end)
      && (end < |code| ==> code[end - 1..end + 1] != [0x0d, 0x0a])
    ensures k + 1 == |LineStarts(code)| ==> Unbroken(code, LineStarts(code)[k], |code|)
  {
    StartsCount(code, |code|);
    StartIsOnItsLine(code, |code|, k);
    var from := LineStarts(code)[k];
    if k + 1 < |LineStarts(code)| {
      StartIsOnItsLine(code, |code|, k + 1);
      LineIsWhole(code, k, from, LineStarts(code)[k + 1]);
    } else {
      LastIsUnbroken(code, k, from);
    }
  }

  /** No unit of a line ends it, but for the last, or a carriage return right before that. */
  lemma {:induction false} UnbrokenAt(code: Text, k: nat, from: nat, end: nat, i: nat)
    requires k < |LineStarts(code)| && from == LineStarts(code)[k] <= i < end - 1 && end <= |code|
    requires if k + 1 < |LineStarts(code)| then end == LineStarts(code)[k + 1] else end == |code|
    ensures code[i] !in TERMINATORS || (i == end - 2 && code[i] == 0x0d && code[i + 1] == 0x0a)
  {
    NoBreakInside(code, k, i + 1);
    TerminatorIsListed(code[i]);
    if i + 2 < end { NoBreakInside(code, k, i + 2); }
  }

  lemma {:induction false} LastIsUnbroken(code: Text, k: nat, from: nat)
    requires k + 1 == |LineStarts(code)| && from == LineStarts(code)[k] <= |code|
    ensures Unbroken(code, from, |code|)
  {
    forall i | from <= i < |code| ensures code[i] !in TERMINATORS {
      NoBreakInside(code, k, |code|);
      TerminatorIsListed(code[|code| - 1]);
      if i < |code| - 1 { UnbrokenAt(code, k, from, |code|, i); }
    }
  }

  /** Where the sequence that ends a line starts. */
  lemma {:induction false} LineBreakAt(code: Text, from: nat, end: nat) returns (n: nat)
    requires from < end <= |code| && BreakEnd(code, end)
    ensures from <= n < end && EndsLine(code[n..end])
    ensures n == if from <= end - 2 && code[end - 2] == 0x0d && code[end - 1] == 0x0a then end - 2 else end - 1
  {
    TerminatorIsListed(code[end - 1]);
    if from <= end - 2 && code[end - 2] == 0x0d && code[end - 1] == 0x0a {
      n := end - 2;
      assert code[n..end] == [0x0d, 0x0a];
    } else {
      n := end - 1;
      assert code[n..end] == [code[n]];
    }
  }

  lemma {:induction false} LineIsWhole(code: Text, k: nat, from: nat, end: nat)
    requires k + 1 < |LineStarts(code)| && from == LineStarts(code)[k] < end == LineStarts(code)[k + 1] <= |code|
    requires BreakEnd(code, end)
    ensures WholeLine(code, from, end)
    ensures end < |code| ==> code[end - 1..end + 1] != [0x0d, 0x0a]
  {
    var n := LineBreakAt(code, from, end);
    forall i | from <= i < n ensures code[i] !in TERMINATORS {
      UnbrokenAt(code, k, from, end, i);
    }
    if end < |code| { assert code[end - 1..end + 1] == [code[end - 1], code[end]]; }
  }

  /** Where the line of offset `x` starts. */
  function StartOfLine(code: Text, x: nat): (start: nat)
    requires x <= |code|
    ensures start <= x
  {
    if x == 0 || BreakEnd(code, x) then x else StartOfLine(code, x - 1)
  }

  lemma {:induction false} StartIsOnSameLine(code: Text, x: nat)
    requires x <= |code|
    ensures var start := StartOfLine(code, x);
      LineOf(code, start) == LineOf(code, x) && (start == 0 || BreakEnd(code, start))
  {
    if x > 0 { StartIsOnSameLine(code, x - 1); }
  }

  lemma {:induction false} StartOfLineIsListed(code: Text, x: nat)
    requires x <= |code|
    ensures LineOf(code, x) < |StartsUpTo(code, x)|
    ensures StartsUpTo(code, x)[LineOf(code, x)] == StartOfLine(code, x)
  {
    StartsCount(code, x);
    if x > 0 {
      StartsCount(code, x - 1);
      StartOfLineIsListed(code, x - 1);
    }
  }

  lemma {:induction false} StartOfLineInAll(code: Text, x: nat)
    requires x <= |code|
    ensures LineOf(code, x) < |LineStarts(code)|
    ensures LineStarts(code)[LineOf(code, x)] == StartOfLine(code, x)
  {
    StartOfLineIsListed(code, x);
    StartsPrefix(code, x, |code|);
  }

  /** Offsets with no terminator between them are on one line. */
  lemma {:induction false} SameLine(code: Text, x: nat, y: nat)
    requires x <= y <= |code|
    requires forall i :: x <= i < y ==> !Terminator(code[i])
    ensures LineOf(code, y) == LineOf(code, x)
  {
    if x < y { SameLine(code, x, y - 1); }
  }

  lemma {:induction false} LineOfIsMonotone(code: Text, x: nat, y: nat)
    requires x <= y <= |code|
    ensures LineOf(code, x) <= LineOf(code, y)
  {
    if x < y { LineOfIsMonotone(code, x, y - 1); }
  }
}

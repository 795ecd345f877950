/**
 What the ASCII rewrite promises: what is left above U+007F, that literals keep their values, that no
 line is added or removed, and that a shifted source map still points at the same characters.
*/
module AsciiTheorems {
  import opened Wrappers
  import opened Sequences
  import opened CodeUnits
  import opened StringLiterals
  import opened Lines
  import opened Columns
  import opened Mappings
  import opened EditPlan
  import opened AsciiRewrite

  function Output(code: Text, spans: seq<Span>): Text
    requires ValidSpans(code, spans)
  {
    Rewritten(code, PlanOf(code, spans))
  }

  // ---------------------------------------------------------- what is left

  lemma EditComesOutAscii(code: Text, plan: Plan, k: nat, y: nat)
    requires Proper(code, plan) && k < |code| && plan[k].Some?
    requires Moved(code, plan, k) <= y < Moved(code, plan, k + 1)
    ensures !NonAscii(Out(code, plan, k + 1)[y])
  {
    assert Replaces(code, plan[k].value);
  }

  /** A unit above U+007F in the result is an untouched unit of the original. */
  lemma {:induction false} WhereFrom(code: Text, plan: Plan, x: nat, y: nat) returns (k: nat)
    requires Proper(code, plan) && x <= |code| && y < |Out(code, plan, x)| && NonAscii(Out(code, plan, x)[y])
    ensures k < x && plan[k].None? && Moved(code, plan, k) == y && Out(code, plan, x)[y] == code[k]
  {
    if y < Moved(code, plan, x - 1) {
      k := WhereFrom(code, plan, x - 1, y);
    } else {
      k := x - 1;
      if plan[k].Some? { EditComesOutAscii(code, plan, k, y); }
    }
  }

  /** All that is left above U+007F is U+2028, U+2029 and the text of tagged templates, each where it was. */
  lemma OnlyKeptUnitsRemain(code: Text, spans: seq<Span>, y: nat) returns (k: nat)
    requires ValidSpans(code, spans) && y < |Output(code, spans)| && Output(code, spans)[y] > 0x7f
    ensures k < |code| && code[k] == Output(code, spans)[y] && Moved(code, PlanOf(code, spans), k) == y
    ensures code[k] == 0x2028 || code[k] == 0x2029
            || (SpanAt(spans, k).Some? && SpanAt(spans, k).value.kind == RawSpan)
  {
    PlanIsProper(code, spans);
    k := WhereFrom(code, PlanOf(code, spans), |code|, y);
    UntouchedIsKept(code, spans, k);
  }

  lemma {:induction false} UntouchedIsKept(code: Text, spans: seq<Span>, k: nat)
    requires ValidSpans(code, spans) && k < |code| && NonAscii(code[k]) && EditAt(code, spans, k).None?
    ensures Separator(code[k]) || (SpanAt(spans, k).Some? && SpanAt(spans, k).value.kind == RawSpan)
  {
    if SpanAt(spans, k).Some? && SpanAt(spans, k).value.kind == RegExpSpan {
      RegExpIsEdited(code, spans, k);
    }
  }

  // ------------------------------------------------------- literals survive

  lemma LiteralImages(code: Text, spans: seq<Span>, i: nat, k: nat)
    requires ValidSpans(code, spans) && i < |spans| && spans[i].kind == LiteralSpan
    requires spans[i].start <= k < spans[i].end <= |code|
    ensures Image(code, PlanOf(code, spans), k) == LiteralImage(code, spans[i].start, spans[i].end, k)
  {
    SpanAtIs(code, spans, k, i);
  }

  lemma {:induction false} LiteralComesOut(code: Text, plan: Plan, start: nat, end: nat, x: nat)
    requires |plan| == |code| && start <= x <= end <= |code|
    requires forall k :: start <= k < end ==> Image(code, plan, k) == LiteralImage(code, start, end, k)
    ensures Out(code, plan, end) == Out(code, plan, x) + LiteralFrom(code, start, end, x)
    decreases end - x
  {
    if x < end {
      LiteralComesOut(code, plan, start, end, x + 1);
      assert Image(code, plan, x) == LiteralImage(code, start, end, x);
      Associate(Out(code, plan, x), LiteralImage(code, start, end, x), LiteralFrom(code, start, end, x + 1));
    }
  }

  /** The part of the result that offsets `start` to `end` became. */
  function Part(code: Text, spans: seq<Span>, start: nat, end: nat): Text
    requires ValidSpans(code, spans) && start <= end <= |code|
  {
    var plan := PlanOf(code, spans);
    OutPrefix(code, plan, start, end);
    OutPrefix(code, plan, end, |code|);
    Output(code, spans)[Moved(code, plan, start)..Moved(code, plan, end)]
  }

  lemma {:induction false} PartIs(code: Text, spans: seq<Span>, start: nat, end: nat, text: Text)
    requires ValidSpans(code, spans) && start <= end <= |code|
    requires Out(code, PlanOf(code, spans), end) == Out(code, PlanOf(code, spans), start) + text
    ensures Part(code, spans, start, end) == text
  {
    OutPrefix(code, PlanOf(code, spans), end, |code|);
  }

  lemma {:induction false} LiteralPart(code: Text, spans: seq<Span>, i: nat)
    requires ValidSpans(code, spans) && i < |spans| && spans[i].kind == LiteralSpan
    requires spans[i].start <= spans[i].end <= |code|
    ensures Part(code, spans, spans[i].start, spans[i].end)
         == LiteralFrom(code, spans[i].start, spans[i].end, spans[i].start)
  {
    var plan, start, end := PlanOf(code, spans), spans[i].start, spans[i].end;
    forall k | start <= k < end ensures Image(code, plan, k) == LiteralImage(code, start, end, k) {
      LiteralImages(code, spans, i, k);
    }
    LiteralComesOut(code, plan, start, end, start);
    PartIs(code, spans, start, end, LiteralFrom(code, start, end, start));
  }

  /** A string or untagged template text lexes to the same tokens, escapes aside, and the same value. */
  lemma LiteralsKeepTheirValue(code: Text, spans: seq<Span>, i: nat)
    requires ValidSpans(code, spans) && i < |spans| && spans[i].kind == LiteralSpan
    requires spans[i].start <= spans[i].end <= |code| && Lex(code[spans[i].start..spans[i].end]).Some?
    ensures var before := Lex(code[spans[i].start..spans[i].end]).value;
      var after := Lex(Part(code, spans, spans[i].start, spans[i].end));
      after == Some(NormalAll(before)) && Value(after.value) == Value(before)
  {
    LiteralPart(code, spans, i);
    RewritePreservesLiteral(code, spans[i].start, spans[i].end);
  }

  /** A tagged template's text is copied, unit for unit. */
  lemma RawTextIsCopied(code: Text, spans: seq<Span>, i: nat)
    requires ValidSpans(code, spans) && i < |spans| && spans[i].kind == RawSpan
    requires spans[i].start <= spans[i].end <= |code|
    ensures Part(code, spans, spans[i].start, spans[i].end) == code[spans[i].start..spans[i].end]
  {
    var plan, start, end := PlanOf(code, spans), spans[i].start, spans[i].end;
    forall k | start <= k < end ensures plan[k].None? {
      SpanAtIs(code, spans, k, i);
    }
    OutUntouched(code, plan, start, end);
    PartIs(code, spans, start, end, code[start..end]);
  }

  /**
   A regular expression literal with a unit above U+007F becomes a call of `RegExp` with strings of its pattern and
   its flags; any other is copied.
  */
  lemma RegExpBecomesConstruction(code: Text, spans: seq<Span>, i: nat) returns (pattern: Text, flags: Text)
    requires ValidSpans(code, spans) && i < |spans| && spans[i].kind == RegExpSpan
    requires ValidSpan(code, spans[i])
    ensures var literal, part := code[spans[i].start..spans[i].end], Part(code, spans, spans[i].start, spans[i].end);
      && literal == [SLASH] + pattern + [SLASH] + flags && SLASH !in flags
      && (if exists k :: 0 <= k < |literal| && literal[k] > 0x7f then Constructs(part, pattern, flags)
          else part == literal)
  {
    var literal := code[spans[i].start..spans[i].end];
    assert HasNonAscii(literal) <==> exists k :: 0 <= k < |literal| && literal[k] > 0x7f;
    pattern, flags := LiteralSplits(literal);
    RegExpPart(code, spans, i);
    ConstructionEvaluates(pattern, flags);
  }

  lemma RegExpPart(code: Text, spans: seq<Span>, i: nat)
    requires ValidSpans(code, spans) && i < |spans| && spans[i].kind == RegExpSpan
    requires ValidSpan(code, spans[i])
    ensures var literal := code[spans[i].start..spans[i].end];
      Part(code, spans, spans[i].start, spans[i].end)
      == if HasNonAscii(literal) then RegExpConstruction(literal) else literal
  {
    var plan, start, end := PlanOf(code, spans), spans[i].start, spans[i].end;
    RegExpPlan(code, spans, i);
    if HasNonAscii(code[start..end]) {
      var edit := Edit(start, end, RegExpConstruction(code[start..end]));
      OutInEdit(code, plan, edit, end);
      PartIs(code, spans, start, end, edit.text);
    } else {
      OutUntouched(code, plan, start, end);
      PartIs(code, spans, start, end, code[start..end]);
    }
  }

  lemma RegExpUnit(code: Text, spans: seq<Span>, i: nat, k: nat)
    requires ValidSpans(code, spans) && i < |spans| && spans[i].kind == RegExpSpan
    requires ValidSpan(code, spans[i]) && spans[i].start <= k < spans[i].end
    ensures var literal := code[spans[i].start..spans[i].end];
      PlanOf(code, spans)[k]
      == if HasNonAscii(literal) then Some(Edit(spans[i].start, spans[i].end, RegExpConstruction(literal))) else None
  {
    SpanAtIs(code, spans, k, i);
    assert PlanOf(code, spans)[k] == EditAt(code, spans, k);
  }

  lemma RegExpPlan(code: Text, spans: seq<Span>, i: nat)
    requires ValidSpans(code, spans) && i < |spans| && spans[i].kind == RegExpSpan && ValidSpan(code, spans[i])
    ensures var literal := code[spans[i].start..spans[i].end];
      if HasNonAscii(literal)
      then Owns(PlanOf(code, spans), Edit(spans[i].start, spans[i].end, RegExpConstruction(literal)))
      else forall k :: spans[i].start <= k < spans[i].end ==> PlanOf(code, spans)[k].None?
  {
    var plan, literal := PlanOf(code, spans), code[spans[i].start..spans[i].end];
    var planned := if HasNonAscii(literal)
      then Some(Edit(spans[i].start, spans[i].end, RegExpConstruction(literal))) else None;
    forall k | spans[i].start <= k < spans[i].end ensures plan[k] == planned {
      RegExpUnit(code, spans, i, k);
    }
  }

  // ------------------------------------------------------- the source map

  /** Column `c` of line `k` is a place on that line, its end included. */
  ghost predicate OnTheLine(code: Text, k: nat, c: int)
  {
    && k < |LineStarts(code)| && 0 <= c && LineStarts(code)[k] + c <= |code|
    && LineOf(code, LineStarts(code)[k] + c) == k
  }

  /** The segments of a line of mappings point at places on that line of the code. */
  ghost predicate PointsOnLine(code: Text, k: nat, line: string)
  {
    line != "" ==>
      && DecodeLine(line).Success? && Complete(DecodeLine(line).value)
      && forall i {:trigger DecodeLine(line).value[..i]} :: 0 <= i <= |DecodeLine(line).value| ==>
           && LastColumn(DecodeLine(line).value[..i]).Some?
           && OnTheLine(code, k, LastColumn(DecodeLine(line).value[..i]).value)
  }

  /** The column of a place on line `k` moves as the text does. */
  lemma {:induction false} ColumnMoves(code: Text, plan: Plan, k: nat, c: int)
    requires Proper(code, plan) && OnTheLine(code, k, c)
    ensures EditsIn(code, AllEdits(plan, |code|))
    ensures var out, x := Rewritten(code, plan), LineStarts(code)[k] + c;
      var moved := Shifted(c, OnLine(LineEditsOf(code, plan), k));
      && k < |LineStarts(out)| && 0 <= moved
      && LineStarts(out)[k] + moved == Moved(code, plan, x) <= |out|
      && (x < |code| && plan[x].None? ==> Moved(code, plan, x) < |out| && out[Moved(code, plan, x)] == code[x])
  {
    var out, x := Rewritten(code, plan), LineStarts(code)[k] + c;
    OffsetsMove(code, plan, x);
    StartOfLineInAll(code, x);
    StartOfLineInAll(out, Moved(code, plan, x));
  }

  lemma {:induction false} PointingLineIsWellFormed(code: Text, plan: Plan, k: nat, line: string)
    requires Proper(code, plan) && EditsIn(code, AllEdits(plan, |code|))
    requires |Rewritten(code, plan)| < 0x8000_0000
    requires PointsOnLine(code, k, line) && line != ""
    ensures WellFormed(line, OnLine(LineEditsOf(code, plan), k))
  {
    var segments, edits := DecodeLine(line).value, OnLine(LineEditsOf(code, plan), k);
    forall i {:trigger segments[..i]} | 0 <= i <= |segments|
      ensures Shift(LastColumn(segments[..i]), edits).Some?
      ensures 0 <= Shift(LastColumn(segments[..i]), edits).value < 0x8000_0000
    {
      ColumnMoves(code, plan, k, LastColumn(segments[..i]).value);
    }
  }

  /**
   Segment `i` of line `k`, before and after: its column moves to where its character moved, the
   character there is the same unless it was itself replaced, and its other fields are kept.
  */
  ghost predicate StillPoints(code: Text, plan: Plan, k: nat, before: seq<seq<int>>, after: seq<seq<int>>, i: nat)
    requires |plan| == |code| && i < |before|
  {
    && |after| == |before|
    && before[i] != [] && after[i] != [] && after[i][1..] == before[i][1..]
    && Mappings.ColumnAt(before, i).Some? && Mappings.ColumnAt(after, i).Some?
    && var c, d := Mappings.ColumnAt(before, i).value, Mappings.ColumnAt(after, i).value;
       var out := Rewritten(code, plan);
       && OnTheLine(code, k, c) && k < |LineStarts(out)|
       && LineStarts(out)[k] + d == Moved(code, plan, LineStarts(code)[k] + c)
       && (LineStarts(code)[k] + c < |code| && plan[LineStarts(code)[k] + c].None? ==>
             && 0 <= d && LineStarts(out)[k] + d < |out|
             && out[LineStarts(out)[k] + d] == code[LineStarts(code)[k] + c])
  }

  lemma {:induction false} SegmentStillPoints(code: Text, plan: Plan, k: nat, before: seq<seq<int>>,
                                              after: seq<seq<int>>, i: nat)
    requires Proper(code, plan) && EditsIn(code, AllEdits(plan, |code|))
    requires i < |before| && MovedBy(before, after, OnLine(LineEditsOf(code, plan), k))
    requires Mappings.ColumnAt(before, i).Some? && OnTheLine(code, k, Mappings.ColumnAt(before, i).value)
    ensures StillPoints(code, plan, k, before, after, i)
  {
    ColumnMoves(code, plan, k, Mappings.ColumnAt(before, i).value);
  }

  lemma {:induction false} LineStillPoints(code: Text, plan: Plan, k: nat, line: string, moved: string, i: nat)
    requires Proper(code, plan) && EditsIn(code, AllEdits(plan, |code|))
    requires PointsOnLine(code, k, line) && line != "" && i < |DecodeLine(line).value|
    requires DecodeLine(moved).Success?
    requires MovedBy(DecodeLine(line).value, DecodeLine(moved).value, OnLine(LineEditsOf(code, plan), k))
    ensures StillPoints(code, plan, k, DecodeLine(line).value, DecodeLine(moved).value, i)
  {
    var before := DecodeLine(line).value;
    assert LastColumn(before[..i + 1]).Some?;
    SegmentStillPoints(code, plan, k, before, DecodeLine(moved).value, i);
  }

  lemma UnmovedLine(segments: seq<seq<int>>)
    requires Complete(segments)
    ensures MovedBy(segments, segments, [])
  {
    forall i | 0 <= i < |segments|
      ensures Mappings.ColumnAt(segments, i) == Shift(Mappings.ColumnAt(segments, i), [])
    {
    }
  }

  /**
   End to end: shifted by the edits of the rewrite, a source map of the original code is one of the
   rewritten code, with the same lines and segments and each still pointing at the same character.
  */
  lemma {:induction false} SourceMapStillPoints(code: Text, spans: seq<Span>, mappings: string)
    requires ValidSpans(code, spans) && |Output(code, spans)| < 0x8000_0000
    requires forall k :: 0 <= k < |Split(mappings, ';')| ==> PointsOnLine(code, k, Split(mappings, ';')[k])
    ensures var plan := PlanOf(code, spans);
      && Proper(code, plan) && EditsIn(code, AllEdits(plan, |code|))
      && var r := ShiftedMappings(mappings, LineEditsOf(code, plan));
      && r.Success? && |Split(r.value, ';')| == |Split(mappings, ';')|
      && forall k :: 0 <= k < |Split(mappings, ';')| ==>
           LinePoints(code, plan, k, Split(mappings, ';')[k], Split(r.value, ';')[k])
  {
    var plan := PlanOf(code, spans);
    PlanIsProper(code, spans);
    AllEditsAreIn(code, plan, |code|);
    var lineEdits, lines := LineEditsOf(code, plan), Split(mappings, ';');
    forall k | 0 <= k < |lines| && k in lineEdits && lines[k] != "" ensures WellFormed(lines[k], lineEdits[k]) {
      PointingLineIsWellFormed(code, plan, k, lines[k]);
    }
    MappingsAreMoved(mappings, lineEdits);
    var shifted := Split(ShiftedMappings(mappings, lineEdits).value, ';');
    forall k | 0 <= k < |lines| ensures LinePoints(code, plan, k, lines[k], shifted[k]) {
      MovedLinePoints(code, plan, k, lines[k], shifted[k]);
    }
  }

  ghost predicate LinePoints(code: Text, plan: Plan, k: nat, line: string, moved: string)
    requires |plan| == |code|
  {
    if line == "" then moved == ""
    else
      && DecodeLine(line).Success? && DecodeLine(moved).Success?
      && forall i :: 0 <= i < |DecodeLine(line).value| ==>
           StillPoints(code, plan, k, DecodeLine(line).value, DecodeLine(moved).value, i)
  }

  lemma {:induction false} MovedLinePoints(code: Text, plan: Plan, k: nat, line: string, moved: string)
    requires Proper(code, plan) && EditsIn(code, AllEdits(plan, |code|))
    requires PointsOnLine(code, k, line) && LineMoved(line, moved, k, LineEditsOf(code, plan))
    ensures LinePoints(code, plan, k, line, moved)
  {
    if line != "" {
      UnmovedLine(DecodeLine(line).value);
      forall i | 0 <= i < |DecodeLine(line).value|
        ensures StillPoints(code, plan, k, DecodeLine(line).value, DecodeLine(moved).value, i)
      {
        LineStillPoints(code, plan, k, line, moved, i);
      }
    }
  }
}

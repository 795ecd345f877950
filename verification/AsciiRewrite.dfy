/**
 The rewrite of JavaScript text to ASCII (ascii-only-output.ts): the loop over the units above U+007F,
 against a definition that says, for each unit on its own, what it becomes.

 Where the literals are is an input. `ValidSpans` is what the parser promises of them.
*/
module AsciiRewrite {
  import opened Wrappers
  import opened CodeUnits
  import opened StringLiterals
  import opened Lines
  import opened Columns
  import opened EditPlan
  import opened Sequences

  datatype SpanKind = LiteralSpan | RawSpan | RegExpSpan

  datatype Span = Span(start: nat, end: nat, kind: SpanKind)

  // ------------------------------------------------------------------ spans

  predicate SplitsPair(code: Text, x: nat)
    requires x <= |code|
  {
    0 < x < |code| && High(code[x - 1]) && Low(code[x])
  }

  predicate ValidSpan(code: Text, span: Span)
  {
    && span.start <= span.end <= |code|
    && !SplitsPair(code, span.start) && !SplitsPair(code, span.end)
    && (span.kind == RegExpSpan ==>
         && RegExpLiteral(code[span.start..span.end])
         && forall i :: span.start <= i < span.end ==> !Terminator(code[i]))
  }

  /** Sorted, disjoint, on code point boundaries; a regular expression literal is on one line. */
  predicate ValidSpans(code: Text, spans: seq<Span>)
  {
    && (forall i :: 0 <= i < |spans| ==> ValidSpan(code, spans[i]))
    && (forall i, j :: 0 <= i < j < |spans| ==> spans[i].end <= spans[j].start)
  }

  /** The span that offset `k` is in. */
  function SpanAt(spans: seq<Span>, k: nat): (r: Option<Span>)
    ensures r.Some? ==> r.value in spans && r.value.start <= k < r.value.end
    ensures r.None? ==> forall i :: 0 <= i < |spans| ==> !(spans[i].start <= k < spans[i].end)
  {
    if spans == [] then None
    else if spans[0].start <= k < spans[0].end then Some(spans[0])
    else SpanAt(spans[1..], k)
  }

  lemma {:induction false} SpanAtIs(code: Text, spans: seq<Span>, k: nat, i: nat)
    requires ValidSpans(code, spans) && i < |spans| && spans[i].start <= k < spans[i].end
    ensures SpanAt(spans, k) == Some(spans[i])
  {
  }

  lemma {:induction false} SpanAtSame(code: Text, spans: seq<Span>, k: nat, j: nat)
    requires ValidSpans(code, spans) && SpanAt(spans, k).Some?
    requires SpanAt(spans, k).value.start <= j < SpanAt(spans, k).value.end
    ensures SpanAt(spans, j) == SpanAt(spans, k)
    ensures ValidSpan(code, SpanAt(spans, k).value)
  {
    var i :| 0 <= i < |spans| && spans[i] == SpanAt(spans, k).value;
    SpanAtIs(code, spans, j, i);
  }

  lemma {:induction false} SpanIsValid(code: Text, spans: seq<Span>, k: nat)
    requires ValidSpans(code, spans)
    ensures SpanAt(spans, k).Some? ==> ValidSpan(code, SpanAt(spans, k).value)
  {
  }

  // ------------------------------------------------- what each unit becomes

  predicate HasNonAscii(t: Text)
  {
    exists i :: 0 <= i < |t| && NonAscii(t[i])
  }

  predicate PairAt(code: Text, k: nat)
  {
    k + 1 < |code| && High(code[k]) && Low(code[k + 1])
  }

  function LiteralEdit(code: Text, span: Span, k: nat): Option<Edit>
    requires span.start <= k < span.end <= |code|
  {
    if Escapable(code[k]) then
      Some(Edit(if Escaped(code, span.start, k) then k - 1 else k, k + 1, UnicodeEscape(code[k])))
    else if Folded(code, span.start, span.end, k) then Some(Edit(k, k + 2, UnicodeEscape(code[k + 1])))
    else None
  }

  function PlainEdit(code: Text, k: nat): Option<Edit>
    requires k < |code|
  {
    if PairAt(code, k) then Some(Edit(k, k + 2, CodePointEscape(CodePoint(code[k], code[k + 1]))))
    else if k > 0 && PairAt(code, k - 1) then Some(Edit(k - 1, k + 1, CodePointEscape(CodePoint(code[k - 1], code[k]))))
    else if Escapable(code[k]) then
      Some(Edit(k, k + 1, if Whitespace(code[k]) then [SPACE] else UnicodeEscape(code[k])))
    else None
  }

  /** The replacement that unit `k` is part of. */
  function EditAt(code: Text, spans: seq<Span>, k: nat): Option<Edit>
    requires k < |code| && ValidSpans(code, spans)
  {
    match SpanAt(spans, k)
    case None => PlainEdit(code, k)
    case Some(span) =>
      assert ValidSpan(code, span);
      match span.kind
      case RawSpan => None
      case LiteralSpan => LiteralEdit(code, span, k)
      case RegExpSpan =>
        var literal := code[span.start..span.end];
        if HasNonAscii(literal) then Some(Edit(span.start, span.end, RegExpConstruction(literal))) else None
  }

  /** The plan of the rewrite. */
  function PlanOf(code: Text, spans: seq<Span>): Plan
    requires ValidSpans(code, spans)
  {
    seq(|code|, k requires 0 <= k < |code| => EditAt(code, spans, k))
  }

  // ------------------------------------------------------ edits are disjoint

  ghost predicate Covers(code: Text, spans: seq<Span>, edit: Edit, k: nat)
    requires ValidSpans(code, spans)
  {
    k < |code| && EditAt(code, spans, k) == Some(edit)
  }

  lemma {:induction false} PlainNeighbour(code: Text, spans: seq<Span>, k: nat, j: nat)
    requires ValidSpans(code, spans) && j < |code| && k < |code|
    requires SpanAt(spans, k).None? && ((j == k + 1 && PairAt(code, k)) || (k == j + 1 && PairAt(code, j)))
    ensures SpanAt(spans, j).None?
  {
    SpanIsValid(code, spans, j);
  }

  lemma {:induction false} PlainEditCovers(code: Text, spans: seq<Span>, k: nat, j: nat)
    requires ValidSpans(code, spans) && k < |code| && SpanAt(spans, k).None?
    requires PlainEdit(code, k).Some?
    ensures var edit := PlainEdit(code, k).value;
      && edit.start <= k < edit.end <= |code|
      && (edit.start <= j < edit.end ==> Covers(code, spans, edit, j))
  {
    var edit := PlainEdit(code, k).value;
    if edit.start <= j < edit.end && j != k {
      PlainNeighbour(code, spans, k, j);
    }
  }

  lemma {:induction false} LiteralEditCovers(code: Text, spans: seq<Span>, span: Span, k: nat, j: nat)
    requires ValidSpans(code, spans) && k < |code|
    requires SpanAt(spans, k) == Some(span) && span.kind == LiteralSpan && span.end <= |code|
    requires LiteralEdit(code, span, k).Some?
    ensures var edit := LiteralEdit(code, span, k).value;
      && span.start <= edit.start <= k < edit.end <= span.end
      && (edit.start <= j < edit.end ==> Covers(code, spans, edit, j))
  {
    var edit := LiteralEdit(code, span, k).value;
    if edit.start <= j < edit.end {
      SpanAtSame(code, spans, k, j);
    }
  }

  /** An edit covers exactly its own units, so no two edits overlap. */
  lemma EditCovers(code: Text, spans: seq<Span>, k: nat, j: nat)
    requires ValidSpans(code, spans) && k < |code| && EditAt(code, spans, k).Some?
    ensures var edit := EditAt(code, spans, k).value;
      && edit.start <= k < edit.end <= |code|
      && (edit.start <= j < edit.end ==> Covers(code, spans, edit, j))
  {
    match SpanAt(spans, k)
    case None => PlainEditCovers(code, spans, k, j);
    case Some(span) =>
      SpanAtSame(code, spans, k, k);
      if span.kind == LiteralSpan {
        LiteralEditCovers(code, spans, span, k, j);
      } else if span.start <= j < span.end {
        SpanAtSame(code, spans, k, j);
      }
  }

  lemma PairReplaces(code: Text, k: nat)
    requires PairAt(code, k)
    ensures Replaces(code, Edit(k, k + 2, CodePointEscape(CodePoint(code[k], code[k + 1]))))
  {
    CodePointEscapeSpells(CodePoint(code[k], code[k + 1]));
    assert NonAscii(code[k]);
  }

  lemma UnitReplaces(code: Text, k: nat, start: nat)
    requires start <= k < |code| && Escapable(code[k]) && forall i :: start <= i < k ==> !Terminator(code[i])
    ensures Replaces(code, Edit(start, k + 1, UnicodeEscape(code[k])))
    ensures Replaces(code, Edit(start, k + 1, [SPACE]))
  {
    UnicodeEscapeSpells(code[k]);
    assert NonAscii(code[k]);
  }

  lemma PlainEditReplaces(code: Text, k: nat)
    requires k < |code| && PlainEdit(code, k).Some?
    ensures Replaces(code, PlainEdit(code, k).value)
  {
    if PairAt(code, k) {
      PairReplaces(code, k);
    } else if k > 0 && PairAt(code, k - 1) {
      PairReplaces(code, k - 1);
    } else {
      UnitReplaces(code, k, k);
    }
  }

  lemma LiteralEditReplaces(code: Text, span: Span, k: nat)
    requires span.start <= k < span.end <= |code| && LiteralEdit(code, span, k).Some?
    ensures Replaces(code, LiteralEdit(code, span, k).value)
  {
    var edit := LiteralEdit(code, span, k).value;
    UnitReplaces(code, edit.end - 1, edit.start);
  }

  lemma RegExpTrigger(code: Text, span: Span)
    requires span.start <= span.end <= |code| && HasNonAscii(code[span.start..span.end])
    ensures exists t :: span.start <= t < span.end && NonAscii(code[t])
  {
    var literal := code[span.start..span.end];
    var i :| 0 <= i < |literal| && NonAscii(literal[i]);
    assert NonAscii(code[span.start + i]);
  }

  lemma RegExpTextIsAscii(literal: Text)
    requires RegExpLiteral(literal)
    ensures RegExpConstruction(literal) != [] && AllPrintable(RegExpConstruction(literal))
  {
    var close := 1 + LastSlash(literal[1..]);
    ConstructionIsAscii(literal[1..close], literal[close + 1..]);
  }

  lemma RegExpEditReplaces(code: Text, span: Span)
    requires ValidSpan(code, span) && span.kind == RegExpSpan && HasNonAscii(code[span.start..span.end])
    ensures Replaces(code, Edit(span.start, span.end, RegExpConstruction(code[span.start..span.end])))
  {
    RegExpTrigger(code, span);
    RegExpTextIsAscii(code[span.start..span.end]);
  }

  /** Every edit replaces some unit above U+007F, and no line terminator, by printable ASCII. */
  lemma EditReplaces(code: Text, spans: seq<Span>, k: nat)
    requires ValidSpans(code, spans) && k < |code| && EditAt(code, spans, k).Some?
    ensures Replaces(code, EditAt(code, spans, k).value)
  {
    match SpanAt(spans, k)
    case None => PlainEditReplaces(code, k);
    case Some(span) =>
      SpanAtSame(code, spans, k, k);
      if span.kind == LiteralSpan { LiteralEditReplaces(code, span, k); } else { RegExpEditReplaces(code, span); }
  }

  lemma PlanOwns(code: Text, spans: seq<Span>, k: nat)
    requires ValidSpans(code, spans) && k < |code| && EditAt(code, spans, k).Some?
    ensures var edit := EditAt(code, spans, k).value;
      edit.start <= k < edit.end && Owns(PlanOf(code, spans), edit)
  {
    var edit := EditAt(code, spans, k).value;
    EditCovers(code, spans, k, k);
    forall j | edit.start <= j < edit.end ensures PlanOf(code, spans)[j] == Some(edit) {
      EditCovers(code, spans, k, j);
    }
  }

  lemma PlanIsProper(code: Text, spans: seq<Span>)
    requires ValidSpans(code, spans)
    ensures Proper(code, PlanOf(code, spans))
  {
    var plan := PlanOf(code, spans);
    forall k | 0 <= k < |plan| && plan[k].Some?
      ensures plan[k].value.start <= k < plan[k].value.end
      ensures Owns(plan, plan[k].value) && Replaces(code, plan[k].value)
    {
      PlanOwns(code, spans, k);
      EditReplaces(code, spans, k);
    }
  }

  // ------------------------------------------------------------------ the loop

  datatype Rewrite = Rewrite(code: Text, lineEdits: LineEdits)

  /** The next unit above U+007F at or after `from`, as `exec` of the regular expression finds it. */
  method FindNonAscii(code: Text, from: nat) returns (o: nat)
    requires from <= |code|
    ensures from <= o <= |code| && AllAscii(code, from, o)
    ensures o < |code| ==> NonAscii(code[o])
  {
    o := from;
    while o < |code| && !NonAscii(code[o])
      invariant from <= o <= |code| && AllAscii(code, from, o)
    {
      o := o + 1;
    }
  }

  method ReplacementAt(code: Text, offset: nat, span: Option<Span>) returns (edit: Edit)
    requires offset < |code| && Escapable(code[offset])
    requires span.Some? ==> ValidSpan(code, span.value) && span.value.start <= offset < span.value.end
    ensures span.None? && !(offset > 0 && PairAt(code, offset - 1)) ==> PlainEdit(code, offset) == Some(edit)
    ensures span.Some? && span.value.kind == LiteralSpan ==> LiteralEdit(code, span.value, offset) == Some(edit)
    ensures span.Some? && span.value.kind == RegExpSpan ==>
      edit == Edit(span.value.start, span.value.end, RegExpConstruction(code[span.value.start..span.value.end]))
  {
    var unit := code[offset];
    if span.Some? && span.value.kind == RegExpSpan {
      return Edit(span.value.start, span.value.end, RegExpConstruction(code[span.value.start..span.value.end]));
    }
    if span.Some? {
      var escaped := EscapedByBackslash(code, offset, span.value.start);
      return Edit(if escaped then offset - 1 else offset, offset + 1, UnicodeEscape(unit));
    }
    if PairAt(code, offset) {
      return Edit(offset, offset + 2, CodePointEscape(CodePoint(unit, code[offset + 1])));
    }
    edit := Edit(offset, offset + 1, if Whitespace(unit) then [SPACE] else UnicodeEscape(unit));
  }

  /** The span the loop finds by moving its index forward is the one the offset is in. */
  lemma {:induction false} FoundSpan(code: Text, spans: seq<Span>, offset: nat, spanIndex: nat)
    requires ValidSpans(code, spans) && spanIndex <= |spans|
    requires forall i :: 0 <= i < spanIndex ==> spans[i].end <= offset
    requires spanIndex < |spans| ==> spans[spanIndex].end > offset
    ensures SpanAt(spans, offset)
         == if spanIndex < |spans| && spans[spanIndex].start <= offset then Some(spans[spanIndex]) else None
  {
    if spanIndex < |spans| && spans[spanIndex].start <= offset {
      SpanAtIs(code, spans, offset, spanIndex);
    }
  }

  method SkipSpans(spans: seq<Span>, from: nat, offset: nat) returns (spanIndex: nat)
    requires from <= |spans| && forall i :: 0 <= i < from ==> spans[i].end <= offset
    ensures from <= spanIndex <= |spans|
    ensures forall i :: 0 <= i < spanIndex ==> spans[i].end <= offset
    ensures spanIndex < |spans| ==> spans[spanIndex].end > offset
  {
    spanIndex := from;
    while spanIndex < |spans| && spans[spanIndex].end <= offset
      invariant from <= spanIndex <= |spans|
      invariant forall i :: 0 <= i < spanIndex ==> spans[i].end <= offset
    {
      spanIndex := spanIndex + 1;
    }
  }

  lemma {:induction false} PairIsPlanned(code: Text, spans: seq<Span>, o: nat)
    requires ValidSpans(code, spans) && 0 < o < |code| && PairAt(code, o - 1) && SpanAt(spans, o).None?
    ensures PlanOf(code, spans)[o - 1].Some? && PlanOf(code, spans)[o - 1].value.end == o + 1
  {
    PlainNeighbour(code, spans, o, o - 1);
  }

  /** The loop's replacement is the planned one: it never starts in the middle of a pair. */
  lemma {:induction false} PlannedEdit(code: Text, spans: seq<Span>, copied: nat, p: nat, o: nat)
    requires ValidSpans(code, spans) && copied <= p <= o < |code| && Escapable(code[o])
    requires Boundary(PlanOf(code, spans), copied) && Passed(code, PlanOf(code, spans), copied, p)
    requires AllAscii(code, p, o)
    ensures SpanAt(spans, o).None? ==> !(o > 0 && PairAt(code, o - 1))
  {
    if SpanAt(spans, o).None? && o > 0 && PairAt(code, o - 1) {
      PairIsPlanned(code, spans, o);
    }
  }

  /** What holds between two turns of the loop. */
  ghost predicate LoopState(code: Text, plan: Plan, copied: nat, last: nat, parts: seq<Text>, lineEdits: LineEdits)
  {
    && copied <= last <= |code| && |plan| == |code|
    && Boundary(plan, copied) && Passed(code, plan, copied, last)
    && Flatten(parts) == Out(code, plan, copied)
    && EditsIn(code, AllEdits(plan, copied))
    && lineEdits == ByLine(code, AllEdits(plan, copied))
  }

  lemma SkipUnit(code: Text, plan: Plan, copied: nat, last: nat, o: nat, parts: seq<Text>, lineEdits: LineEdits)
    requires Proper(code, plan) && LoopState(code, plan, copied, last, parts, lineEdits)
    requires last <= o < |code| && AllAscii(code, last, o) && plan[o].None?
    ensures LoopState(code, plan, copied, o + 1, parts, lineEdits)
  {
  }

  lemma {:induction false} FlattenTwo(parts: seq<Text>, a: Text, b: Text)
    ensures Flatten(parts + [a, b]) == Flatten(parts) + a + b
  {
    assert (parts + [a, b])[..|parts| + 1] == parts + [a];
    assert (parts + [a])[..|parts|] == parts;
  }

  function AddEdit(code: Text, lineEdits: LineEdits, edit: Edit): LineEdits
    requires edit.start <= edit.end <= |code|
  {
    var line := LineOf(code, edit.start);
    lineEdits[line := OnLine(lineEdits, line) + [AsColumns(code, edit)]]
  }

  lemma TakeEdit(code: Text, plan: Plan, copied: nat, last: nat, o: nat, parts: seq<Text>, lineEdits: LineEdits)
    requires Proper(code, plan) && LoopState(code, plan, copied, last, parts, lineEdits)
    requires last <= o < |code| && AllAscii(code, last, o) && plan[o].Some?
    ensures var edit := plan[o].value;
      && copied <= edit.start <= o < edit.end <= |code|
      && LoopState(code, plan, edit.end, edit.end, parts + [code[copied..edit.start], edit.text],
                   AddEdit(code, lineEdits, edit))
  {
    var edit := plan[o].value;
    NoEditBeforeEdit(code, plan, copied, last, o);
    OutUntouched(code, plan, copied, edit.start);
    OutInEdit(code, plan, edit, edit.end);
    BoundaryAtEnd(code, plan, edit);
    FlattenTwo(parts, code[copied..edit.start], edit.text);
    AllEditsAreIn(code, plan, edit.end);
    AddedEdit(code, AllEdits(plan, copied), edit);
  }

  lemma {:induction false} AddedEdit(code: Text, edits: seq<Edit>, edit: Edit)
    requires EditsIn(code, edits) && edit.start <= edit.end <= |code|
    ensures EditsIn(code, edits + [edit])
    ensures ByLine(code, edits + [edit]) == AddEdit(code, ByLine(code, edits), edit)
  {
    assert (edits + [edit])[..|edits|] == edits;
  }

  lemma {:induction false} NoLinesNoEdits(code: Text, edits: seq<Edit>)
    requires EditsIn(code, edits)
    ensures ByLine(code, edits) == map[] <==> edits == []
  {
    if edits != [] {
      assert LineOf(code, edits[|edits| - 1].start) in ByLine(code, edits);
    }
  }

  /** What is left to copy after the last unit above U+007F. */
  lemma {:induction false} CopyRest(code: Text, plan: Plan, copied: nat, last: nat, parts: seq<Text>,
                                    lineEdits: LineEdits)
    requires Proper(code, plan) && LoopState(code, plan, copied, last, parts, lineEdits)
    requires AllAscii(code, last, |code|)
    ensures Flatten(parts) + code[copied..] == Rewritten(code, plan)
    ensures AllEdits(plan, |code|) == AllEdits(plan, copied)
  {
    NoEditBefore(code, plan, copied, last, |code|);
    OutUntouched(code, plan, copied, |code|);
  }

  /** The line and columns the loop records for an edit. */
  method RecordEdit(code: Text, lineStarts: seq<nat>, lineEdits: LineEdits, edit: Edit) returns (r: LineEdits)
    requires lineStarts == LineStarts(code) && edit.start <= edit.end <= |code|
    ensures r == AddEdit(code, lineEdits, edit)
  {
    StartsCount(code, |code|);
    var line := LineIndexOf(lineStarts, edit.start);
    LineIndexIsLineOf(code, edit.start, line);
    StartOfLineInAll(code, edit.start);
    var edits := if line in lineEdits then lineEdits[line] else [];
    r := lineEdits[line := edits + [ColumnEdit(edit.start - lineStarts[line], edit.end - edit.start, |edit.text|)]];
  }

  method EscapeNonAsciiJavaScript(code: Text, spans: seq<Span>) returns (r: Option<Rewrite>)
    requires ValidSpans(code, spans)
    ensures var plan := PlanOf(code, spans);
      && EditsIn(code, AllEdits(plan, |code|))
      && r == if AllEdits(plan, |code|) == [] then None
              else Some(Rewrite(Rewritten(code, plan), LineEditsOf(code, plan)))
  {
    ghost var plan := PlanOf(code, spans);
    PlanIsProper(code, spans);
    var offset := FindNonAscii(code, 0);
    var lineStarts := LineStartOffsets(code);
    var parts: seq<Text> := [];
    var lineEdits: LineEdits := map[];
    var copiedThrough: nat, lastIndex: nat, spanIndex: nat := 0, 0, 0;
    while offset < |code|
      invariant LoopState(code, plan, copiedThrough, lastIndex, parts, lineEdits)
      invariant lastIndex <= offset <= |code| && AllAscii(code, lastIndex, offset)
      invariant offset < |code| ==> NonAscii(code[offset])
      invariant spanIndex <= |spans| && forall i :: 0 <= i < spanIndex ==> spans[i].end <= offset
      decreases |code| - lastIndex
    {
      var edit;
      edit, spanIndex := EditFound(code, spans, offset, spanIndex, copiedThrough, lastIndex);
      if edit.None? {
        SkipUnit(code, plan, copiedThrough, lastIndex, offset, parts, lineEdits);
        lastIndex := offset + 1;
      } else {
        TakeEdit(code, plan, copiedThrough, lastIndex, offset, parts, lineEdits);
        parts := parts + [code[copiedThrough..edit.value.start], edit.value.text];
        lineEdits := RecordEdit(code, lineStarts, lineEdits, edit.value);
        copiedThrough, lastIndex := edit.value.end, edit.value.end;
      }
      offset := FindNonAscii(code, lastIndex);
    }
    CopyRest(code, plan, copiedThrough, lastIndex, parts, lineEdits);
    NoLinesNoEdits(code, AllEdits(plan, |code|));
    if |lineEdits| == 0 {
      return None;
    }
    r := Some(Rewrite(Flatten(parts) + code[copiedThrough..], lineEdits));
  }

  /** The replacement of a unit in no raw span is the planned one. */
  method PlannedReplacement(code: Text, spans: seq<Span>, offset: nat, span: Option<Span>) returns (edit: Edit)
    requires ValidSpans(code, spans) && offset < |code| && Escapable(code[offset])
    requires span == SpanAt(spans, offset) && (span.Some? ==> span.value.kind != RawSpan)
    requires span.None? ==> !(offset > 0 && PairAt(code, offset - 1))
    ensures EditAt(code, spans, offset) == Some(edit)
  {
    SpanIsValid(code, spans, offset);
    if span.Some? && span.value.kind == RegExpSpan { RegExpIsEdited(code, spans, offset); }
    edit := ReplacementAt(code, offset, span);
  }

  lemma {:induction false} RegExpIsEdited(code: Text, spans: seq<Span>, k: nat)
    requires ValidSpans(code, spans) && k < |code| && NonAscii(code[k])
    requires SpanAt(spans, k).Some? && SpanAt(spans, k).value.kind == RegExpSpan
    ensures EditAt(code, spans, k).Some?
  {
    SpanIsValid(code, spans, k);
    var span := SpanAt(spans, k).value;
    assert code[span.start..span.end][k - span.start] == code[k];
  }

  /** Which replacement the unit at `offset` starts, if it is to be rewritten at all. */
  method EditFound(code: Text, spans: seq<Span>, offset: nat, from: nat, ghost copied: nat, ghost last: nat)
    returns (edit: Option<Edit>, spanIndex: nat)
    requires ValidSpans(code, spans) && copied <= last <= offset < |code| && NonAscii(code[offset])
    requires Boundary(PlanOf(code, spans), copied) && Passed(code, PlanOf(code, spans), copied, last)
    requires AllAscii(code, last, offset)
    requires from <= |spans| && forall i :: 0 <= i < from ==> spans[i].end <= offset
    ensures edit == PlanOf(code, spans)[offset]
    ensures spanIndex <= |spans| && forall i :: 0 <= i < spanIndex ==> spans[i].end <= offset
  {
    spanIndex := from;
    if Separator(code[offset]) {
      SeparatorIsKept(code, spans, offset);
      return None, spanIndex;
    }
    spanIndex := SkipSpans(spans, spanIndex, offset);
    FoundSpan(code, spans, offset, spanIndex);
    var inSpan := spanIndex < |spans| && spans[spanIndex].start <= offset;
    if inSpan && spans[spanIndex].kind == RawSpan {
      return None, spanIndex;
    }
    PlannedEdit(code, spans, copied, last, offset);
    var replacement := PlannedReplacement(code, spans, offset, if inSpan then Some(spans[spanIndex]) else None);
    edit := Some(replacement);
  }

  /** U+2028 and U+2029 are left alone everywhere. */
  lemma SeparatorIsKept(code: Text, spans: seq<Span>, k: nat)
    requires ValidSpans(code, spans) && k < |code| && Separator(code[k])
    ensures EditAt(code, spans, k).None?
  {
    if SpanAt(spans, k).Some? { SpanAtSame(code, spans, k, k); }
  }
}

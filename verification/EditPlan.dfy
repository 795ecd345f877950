/**
 A plan of replacements over a text: for each unit, the replacement it is part of, if any. What the text
 becomes, how its lines move and where its columns land are consequences of the plan being disjoint.
*/
module EditPlan {
  import opened Wrappers
  import opened Sequences
  import opened CodeUnits
  import opened StringLiterals
  import opened Lines
  import opened Columns

  /** One replacement: `code[start..end]` becomes `text`. */
  datatype Edit = Edit(start: nat, end: nat, text: Text)

  type Plan = seq<Option<Edit>>

  /** It replaces some unit above U+007F, and no line terminator, by printable ASCII. */
  ghost predicate Replaces(code: Text, edit: Edit)
  {
    && edit.start < edit.end <= |code|
    && (exists t :: edit.start <= t < edit.end && NonAscii(code[t]))
    && (forall t :: edit.start <= t < edit.end ==> !Terminator(code[t]))
    && edit.text != [] && AllPrintable(edit.text)
  }

  /** The edit is the one planned for each unit it replaces, so that no two edits overlap. */
  ghost predicate Owns(plan: Plan, edit: Edit)
  {
    && edit.start < edit.end <= |plan|
    && forall j :: edit.start <= j < edit.end ==> plan[j] == Some(edit)
  }

  lemma OwnsAt(plan: Plan, edit: Edit, j: int)
    requires Owns(plan, edit) && edit.start <= j < edit.end
    ensures plan[j] == Some(edit)
  {
  }

  ghost predicate Proper(code: Text, plan: Plan)
  {
    && |plan| == |code|
    && forall k :: 0 <= k < |plan| && plan[k].Some? ==>
         && plan[k].value.start <= k < plan[k].value.end
         && Owns(plan, plan[k].value) && Replaces(code, plan[k].value)
  }

  /** The text unit `k` contributes: a replacement's text stands at its last unit. */
  function Image(code: Text, plan: Plan, k: nat): Text
    requires k < |code| && |plan| == |code|
  {
    match plan[k]
    case None => [code[k]]
    case Some(edit) => if k + 1 == edit.end then edit.text else []
  }

  /** What the first `x` units become. */
  function Out(code: Text, plan: Plan, x: nat): Text
    requires x <= |code| && |plan| == |code|
  {
    if x == 0 then [] else Out(code, plan, x - 1) + Image(code, plan, x - 1)
  }

  /** The edits that end at or before `x`, in order. */
  function AllEdits(plan: Plan, x: nat): seq<Edit>
    requires x <= |plan|
  {
    if x == 0 then []
    else
      match plan[x - 1]
      case None => AllEdits(plan, x - 1)
      case Some(edit) => if edit.end == x then AllEdits(plan, x - 1) + [edit] else AllEdits(plan, x - 1)
  }

  predicate EditsIn(code: Text, edits: seq<Edit>)
  {
    forall i :: 0 <= i < |edits| ==> edits[i].start <= edits[i].end <= |code|
  }

  function OnLine(lineEdits: LineEdits, line: nat): seq<ColumnEdit>
  {
    if line in lineEdits then lineEdits[line] else []
  }

  function AsColumns(code: Text, edit: Edit): ColumnEdit
    requires edit.start <= edit.end <= |code|
  {
    ColumnEdit(edit.start - StartOfLine(code, edit.start), edit.end - edit.start, |edit.text|)
  }

  /** The edits by line, in columns of the original code. */
  function ByLine(code: Text, edits: seq<Edit>): LineEdits
    requires EditsIn(code, edits)
  {
    if edits == [] then map[]
    else
      var n := |edits| - 1;
      var before := ByLine(code, edits[..n]);
      var line := LineOf(code, edits[n].start);
      before[line := OnLine(before, line) + [AsColumns(code, edits[n])]]
  }

  lemma {:induction false} AllEditsAreIn(code: Text, plan: Plan, x: nat)
    requires x <= |code| && Proper(code, plan)
    ensures EditsIn(code, AllEdits(plan, x))
  {
    if x > 0 { AllEditsAreIn(code, plan, x - 1); }
  }

  // ------------------------------------------------- facts the loop relies on

  /** No edit straddles `x`. */
  ghost predicate Boundary(plan: Plan, x: nat)
    requires x <= |plan|
  {
    forall k :: 0 <= k < x && plan[k].Some? ==> plan[k].value.end <= x
  }

  /** What the loop has passed over since `copied` belongs to no edit yet to be found. */
  ghost predicate Passed(code: Text, plan: Plan, copied: nat, p: nat)
    requires copied <= p <= |code| && |plan| == |code|
  {
    forall k :: copied <= k < p && NonAscii(code[k]) ==> plan[k].None?
  }

  ghost predicate AllAscii(code: Text, from: nat, to: nat)
    requires from <= to <= |code|
  {
    forall k :: from <= k < to ==> !NonAscii(code[k])
  }

  /** An edit that starts in what is being copied reaches past the next unit above U+007F. */
  lemma NothingPending(code: Text, plan: Plan, copied: nat, p: nat, o: nat, k: nat)
    requires Proper(code, plan) && copied <= p <= o <= |code| && copied <= k < o
    requires Boundary(plan, copied) && Passed(code, plan, copied, p) && AllAscii(code, p, o)
    requires plan[k].Some?
    ensures copied <= plan[k].value.start
    ensures o < |code| && plan[o] == plan[k] && plan[k].value.end > o
  {
    var edit := plan[k].value;
    var t :| edit.start <= t < edit.end && NonAscii(code[t]);
    assert plan[t] == Some(edit);
    if edit.start < copied { OwnsAt(plan, edit, copied - 1); }
  }

  lemma NoEditBefore(code: Text, plan: Plan, copied: nat, p: nat, o: nat)
    requires Proper(code, plan) && copied <= p <= o <= |code|
    requires Boundary(plan, copied) && Passed(code, plan, copied, p) && AllAscii(code, p, o)
    requires o < |code| ==> plan[o].None?
    ensures forall k :: copied <= k < o ==> plan[k].None?
  {
    forall k | copied <= k < o ensures plan[k].None? {
      if plan[k].Some? { NothingPending(code, plan, copied, p, o, k); }
    }
  }

  lemma NoEditBeforeEdit(code: Text, plan: Plan, copied: nat, p: nat, o: nat)
    requires Proper(code, plan) && copied <= p <= o < |code|
    requires Boundary(plan, copied) && Passed(code, plan, copied, p) && AllAscii(code, p, o)
    requires plan[o].Some?
    ensures copied <= plan[o].value.start <= o
    ensures forall k :: copied <= k < plan[o].value.start ==> plan[k].None?
  {
    var edit := plan[o].value;
    if edit.start < copied { OwnsAt(plan, edit, copied - 1); }
    forall k | copied <= k < edit.start ensures plan[k].None? {
      if plan[k].Some? { NothingPending(code, plan, copied, p, o, k); }
    }
  }

  lemma {:induction false} OutUntouched(code: Text, plan: Plan, x: nat, y: nat)
    requires |plan| == |code| && x <= y <= |code|
    requires forall k :: x <= k < y ==> plan[k].None?
    ensures Out(code, plan, y) == Out(code, plan, x) + code[x..y]
    ensures AllEdits(plan, y) == AllEdits(plan, x)
  {
    if x < y {
      OutUntouched(code, plan, x, y - 1);
      SliceGrows(code, x, y);
      Associate(Out(code, plan, x), code[x..y - 1], [code[y - 1]]);
    }
  }

  /** Inside an edit nothing comes out; at its end its text does. */
  lemma {:induction false} OutInEdit(code: Text, plan: Plan, edit: Edit, x: nat)
    requires |plan| == |code| && Owns(plan, edit) && edit.start <= x <= edit.end
    ensures Out(code, plan, x) == Out(code, plan, edit.start) + if x == edit.end then edit.text else []
    ensures AllEdits(plan, x) == AllEdits(plan, edit.start) + if x == edit.end then [edit] else []
  {
    if edit.start < x {
      OutInEdit(code, plan, edit, x - 1);
      OwnsAt(plan, edit, x - 1);
    }
  }

  lemma BoundaryAtEnd(code: Text, plan: Plan, edit: Edit)
    requires Proper(code, plan) && Owns(plan, edit)
    ensures Boundary(plan, edit.end)
  {
    forall k | 0 <= k < edit.end && plan[k].Some? ensures plan[k].value.end <= edit.end {
      OwnsAt(plan, edit, edit.end - 1);
      if plan[k].value.end > edit.end { OwnsAt(plan, plan[k].value, edit.end - 1); }
    }
  }

  // ------------------------------------------------------------ line structure

  lemma {:induction false} OutPrefix(code: Text, plan: Plan, x: nat, y: nat)
    requires |plan| == |code| && x <= y <= |code|
    ensures Out(code, plan, x) <= Out(code, plan, y)
    decreases y
  {
    if x < y { OutPrefix(code, plan, x, y - 1); }
  }

  function Rewritten(code: Text, plan: Plan): Text
    requires |plan| == |code|
  {
    Out(code, plan, |code|)
  }

  /** Where offset `x` of the original is in the result. */
  function Moved(code: Text, plan: Plan, x: nat): nat
    requires x <= |code| && |plan| == |code|
  {
    |Out(code, plan, x)|
  }

  /** A unit outside every replaced range stands, unchanged, at the place it moved to. */
  lemma SameUnit(code: Text, plan: Plan, x: nat)
    requires |plan| == |code| && x < |code| && plan[x].None?
    ensures Moved(code, plan, x) < |Rewritten(code, plan)|
    ensures Rewritten(code, plan)[Moved(code, plan, x)] == code[x]
    ensures Moved(code, plan, x + 1) == Moved(code, plan, x) + 1
  {
    OutPrefix(code, plan, x + 1, |code|);
    assert Out(code, plan, x + 1) == Out(code, plan, x) + [code[x]];
  }

  /** The first unit that comes out from inside a replaced range is printable ASCII. */
  lemma {:induction false} NextOfEdit(code: Text, plan: Plan, x: nat)
    requires Proper(code, plan) && x < |code| && plan[x].Some?
    ensures Moved(code, plan, x) < |Rewritten(code, plan)|
    ensures PrintableAscii(Rewritten(code, plan)[Moved(code, plan, x)])
    decreases |code| - x
  {
    var edit := plan[x].value;
    OutPrefix(code, plan, x + 1, |code|);
    if x + 1 == edit.end {
      assert Out(code, plan, x + 1) == Out(code, plan, x) + edit.text;
      assert Rewritten(code, plan)[Moved(code, plan, x)] == edit.text[0];
    } else {
      assert Out(code, plan, x + 1) == Out(code, plan, x);
      OwnsAt(plan, edit, x + 1);
      NextOfEdit(code, plan, x + 1);
    }
  }

  /** Whether a line feed comes next is the same before and after. */
  lemma SameLineFeed(code: Text, plan: Plan, x: nat)
    requires Proper(code, plan) && x <= |code|
    ensures var out, y := Rewritten(code, plan), Moved(code, plan, x);
      && y <= |out|
      && (x < |code| && code[x] == LINE_FEED <==> y < |out| && out[y] == LINE_FEED)
  {
    if x < |code| {
      if plan[x].None? {
        SameUnit(code, plan, x);
      } else {
        NextOfEdit(code, plan, x);
        assert !Terminator(code[x]);
      }
    }
  }

  /** A break ends after an untouched unit in the result exactly when it does in the original. */
  lemma SameBreak(code: Text, plan: Plan, x: nat)
    requires Proper(code, plan) && 0 < x <= |code| && plan[x - 1].None?
    ensures Moved(code, plan, x) <= |Rewritten(code, plan)|
    ensures BreakEnd(Rewritten(code, plan), Moved(code, plan, x)) <==> BreakEnd(code, x)
  {
    SameUnit(code, plan, x - 1);
    SameLineFeed(code, plan, x);
  }

  /** No break ends inside or right after a replacement, in the original or in the result. */
  lemma NoBreakInEdit(code: Text, plan: Plan, x: nat)
    requires Proper(code, plan) && 0 < x <= |code| && plan[x - 1].Some?
    ensures !BreakEnd(code, x)
    ensures Moved(code, plan, x - 1) <= Moved(code, plan, x) <= |Rewritten(code, plan)|
    ensures forall i :: Moved(code, plan, x - 1) <= i < Moved(code, plan, x) ==> !Terminator(Rewritten(code, plan)[i])
  {
    var edit := plan[x - 1].value;
    OutPrefix(code, plan, x, |code|);
    OutPrefix(code, plan, x - 1, x);
    assert !Terminator(code[x - 1]);
    var out, from := Rewritten(code, plan), Moved(code, plan, x - 1);
    forall i | from <= i < Moved(code, plan, x) ensures !Terminator(out[i]) {
      assert Out(code, plan, x) == Out(code, plan, x - 1) + edit.text;
      assert out[i] == Out(code, plan, x)[i] == edit.text[i - from];
      assert PrintableAscii(edit.text[i - from]);
    }
  }

  lemma NextLine(text: Text, x: nat)
    requires 0 < x <= |text|
    ensures LineOf(text, x) == LineOf(text, x - 1) + if BreakEnd(text, x) then 1 else 0
  {
  }

  lemma SameNextLine(code: Text, x: nat, out: Text, y: nat)
    requires 0 < x <= |code| && 0 < y <= |out| && LineOf(out, y - 1) == LineOf(code, x - 1)
    requires BreakEnd(out, y) <==> BreakEnd(code, x)
    ensures LineOf(out, y) == LineOf(code, x)
  {
    NextLine(out, y);
    NextLine(code, x);
  }

  lemma UntouchedKeepsLine(code: Text, plan: Plan, x: nat)
    requires Proper(code, plan) && 0 < x <= |code| && plan[x - 1].None?
    requires var y := Moved(code, plan, x - 1);
      y <= |Rewritten(code, plan)| && LineOf(Rewritten(code, plan), y) == LineOf(code, x - 1)
    ensures Moved(code, plan, x) <= |Rewritten(code, plan)|
    ensures LineOf(Rewritten(code, plan), Moved(code, plan, x)) == LineOf(code, x)
  {
    SameUnit(code, plan, x - 1);
    SameBreak(code, plan, x);
    SameNextLine(code, x, Rewritten(code, plan), Moved(code, plan, x));
  }

  lemma EditKeepsLine(code: Text, plan: Plan, x: nat)
    requires Proper(code, plan) && 0 < x <= |code| && plan[x - 1].Some?
    requires var y := Moved(code, plan, x - 1);
      y <= |Rewritten(code, plan)| && LineOf(Rewritten(code, plan), y) == LineOf(code, x - 1)
    ensures Moved(code, plan, x) <= |Rewritten(code, plan)|
    ensures LineOf(Rewritten(code, plan), Moved(code, plan, x)) == LineOf(code, x)
  {
    NoBreakInEdit(code, plan, x);
    SameLine(Rewritten(code, plan), Moved(code, plan, x - 1), Moved(code, plan, x));
    NextLine(code, x);
  }

  /** Every offset is on the same line after the rewrite as before. */
  lemma {:induction false} LinesAreKept(code: Text, plan: Plan, x: nat)
    requires Proper(code, plan) && x <= |code|
    ensures Moved(code, plan, x) <= |Rewritten(code, plan)|
    ensures LineOf(Rewritten(code, plan), Moved(code, plan, x)) == LineOf(code, x)
  {
    if x > 0 {
      LinesAreKept(code, plan, x - 1);
      if plan[x - 1].None? { UntouchedKeepsLine(code, plan, x); } else { EditKeepsLine(code, plan, x); }
    }
  }

  /** The result has as many lines, and each starts where the start of the original one moved to. */
  lemma LineStartsMove(code: Text, plan: Plan)
    requires Proper(code, plan)
    ensures |LineStarts(Rewritten(code, plan))| == |LineStarts(code)|
    ensures forall k :: 0 <= k < |LineStarts(code)| ==> LineStarts(code)[k] <= |code|
    ensures forall k :: 0 <= k < |LineStarts(code)| ==>
      LineStarts(Rewritten(code, plan))[k] == Moved(code, plan, LineStarts(code)[k])
  {
    var out := Rewritten(code, plan);
    StartsCount(code, |code|);
    StartsCount(out, |out|);
    LinesAreKept(code, plan, |code|);
    forall k | 0 <= k < |LineStarts(code)|
      ensures LineStarts(out)[k] == Moved(code, plan, LineStarts(code)[k])
    {
      StartIsOnItsLine(code, |code|, k);
      StartMoves(code, plan, LineStarts(code)[k]);
    }
  }

  lemma {:induction false} StartMoves(code: Text, plan: Plan, x: nat)
    requires Proper(code, plan) && x <= |code| && (x == 0 || BreakEnd(code, x))
    ensures var out := Rewritten(code, plan);
      LineOf(code, x) < |LineStarts(out)| && LineStarts(out)[LineOf(code, x)] == Moved(code, plan, x)
  {
    var out := Rewritten(code, plan);
    LinesAreKept(code, plan, x);
    if x > 0 {
      assert plan[x - 1].None? by { if plan[x - 1].Some? { NoBreakInEdit(code, plan, x); } }
      SameBreak(code, plan, x);
    }
    StartOfLineInAll(out, Moved(code, plan, x));
  }

  // ------------------------------------------------------------------- columns

  /** The edits of one line, in column order. */
  function LineList(code: Text, edits: seq<Edit>, line: nat): seq<ColumnEdit>
    requires EditsIn(code, edits)
  {
    if edits == [] then []
    else
      var n := |edits| - 1;
      LineList(code, edits[..n], line)
      + if LineOf(code, edits[n].start) == line then [AsColumns(code, edits[n])] else []
  }

  lemma {:induction false} ByLineIsLineList(code: Text, edits: seq<Edit>, line: nat)
    requires EditsIn(code, edits)
    ensures OnLine(ByLine(code, edits), line) == LineList(code, edits, line)
  {
    if edits != [] { ByLineIsLineList(code, edits[..|edits| - 1], line); }
  }

  /** Column edits in order, none overlapping. */
  ghost predicate InOrder(edits: seq<ColumnEdit>)
  {
    && (forall i :: 0 <= i < |edits| ==> edits[i].removed > 0)
    && forall i, j :: 0 <= i < j < |edits| ==> edits[i].column + edits[i].removed <= edits[j].column
  }

  ghost predicate CoversColumn(edit: ColumnEdit, column: int)
  {
    edit.column <= column < edit.column + edit.removed
  }

  lemma {:induction false} ShiftPast(edits: seq<ColumnEdit>, column: int, delta: int)
    requires InOrder(edits) && forall i :: 0 <= i < |edits| ==> !CoversColumn(edits[i], column)
    ensures ShiftedFrom(column + 1, edits, delta) == ShiftedFrom(column, edits, delta) + 1
    decreases |edits|
  {
    if edits != [] && edits[0].column < column {
      ShiftPast(edits[1..], column, delta + edits[0].inserted - edits[0].removed);
    }
  }

  lemma {:induction false} ShiftInside(edits: seq<ColumnEdit>, column: int, delta: int, i: nat)
    requires InOrder(edits) && i < |edits| && CoversColumn(edits[i], column)
    ensures ShiftedFrom(column + 1, edits, delta) - ShiftedFrom(column, edits, delta)
         == if column + 1 == edits[i].column + edits[i].removed then edits[i].inserted else 0
    decreases |edits|
  {
    if i > 0 {
      ShiftInside(edits[1..], column, delta + edits[0].inserted - edits[0].removed, i - 1);
    } else if |edits| > 1 {
      assert edits[0].column + edits[0].removed <= edits[1].column;
    }
  }

  /** Where line `line` starts, for any offset on it. */
  lemma {:induction false} SameStart(code: Text, x: nat, y: nat)
    requires x <= |code| && y <= |code| && LineOf(code, x) == LineOf(code, y)
    ensures StartOfLine(code, x) == StartOfLine(code, y)
  {
    StartOfLineInAll(code, x);
    StartOfLineInAll(code, y);
  }

  /** The list holds edits of the line that starts at `start`, all ended by `x`. */
  ghost predicate Lists(code: Text, plan: Plan, start: nat, x: nat, list: seq<ColumnEdit>)
    requires |plan| == |code|
  {
    forall i :: 0 <= i < |list| ==> Listed(code, plan, start, x, list[i])
  }

  ghost predicate Listed(code: Text, plan: Plan, start: nat, x: nat, column: ColumnEdit)
    requires |plan| == |code|
  {
    var p := start + column.column;
    && p < |code| && plan[p].Some? && plan[p].value.start == p
    && plan[p].value.end == p + column.removed <= x
    && |plan[p].value.text| == column.inserted
  }

  lemma ListedBefore(code: Text, plan: Plan, start: nat, edit: Edit, column: ColumnEdit)
    requires Proper(code, plan) && Owns(plan, edit) && Listed(code, plan, start, edit.end - 1, column)
    ensures start + column.column + column.removed <= edit.start
  {
    var other := plan[start + column.column].value;
    if other.end > edit.start {
      var j := other.end - 1;
      OwnsAt(plan, other, j);
      if j >= edit.start { OwnsAt(plan, edit, j); }
    }
  }

  lemma InOrderAppend(list: seq<ColumnEdit>, next: ColumnEdit)
    requires InOrder(list) && next.removed > 0
    requires forall i :: 0 <= i < |list| ==> list[i].column + list[i].removed <= next.column
    ensures InOrder(list + [next])
  {
  }

  /** The next edit of the plan goes after all those already listed. */
  lemma {:induction false} ListAppend(code: Text, plan: Plan, start: nat, edit: Edit, list: seq<ColumnEdit>)
    requires Proper(code, plan) && Owns(plan, edit) && StartOfLine(code, edit.start) == start
    requires InOrder(list) && Lists(code, plan, start, edit.end - 1, list)
    ensures InOrder(list + [AsColumns(code, edit)])
    ensures Lists(code, plan, start, edit.end, list + [AsColumns(code, edit)])
  {
    OwnsAt(plan, edit, edit.start);
    forall i | 0 <= i < |list| ensures list[i].column + list[i].removed <= edit.start - start {
      ListedBefore(code, plan, start, edit, list[i]);
    }
    InOrderAppend(list, AsColumns(code, edit));
  }

  /** The list of the line that `on` is on. */
  lemma {:induction false} ListIsInOrder(code: Text, plan: Plan, x: nat, on: nat)
    requires Proper(code, plan) && x <= |code| && on <= |code|
    ensures EditsIn(code, AllEdits(plan, x))
    ensures var list := LineList(code, AllEdits(plan, x), LineOf(code, on));
      InOrder(list) && Lists(code, plan, StartOfLine(code, on), x, list)
  {
    AllEditsAreIn(code, plan, x);
    if x > 0 {
      ListIsInOrder(code, plan, x - 1, on);
      var list := LineList(code, AllEdits(plan, x - 1), LineOf(code, on));
      ListStays(code, plan, StartOfLine(code, on), x - 1, list);
      if plan[x - 1].Some? && plan[x - 1].value.end == x {
        var edit := plan[x - 1].value;
        ListGrows(code, plan, x, LineOf(code, on));
        if LineOf(code, edit.start) == LineOf(code, on) {
          SameStart(code, edit.start, on);
          ListAppend(code, plan, StartOfLine(code, on), edit, list);
        }
      }
    }
  }

  lemma ListStays(code: Text, plan: Plan, start: nat, x: nat, list: seq<ColumnEdit>)
    requires |plan| == |code| && Lists(code, plan, start, x, list)
    ensures Lists(code, plan, start, x + 1, list)
  {
    forall i | 0 <= i < |list| ensures Listed(code, plan, start, x + 1, list[i]) {
      assert Listed(code, plan, start, x, list[i]);
    }
  }

  lemma ListGrows(code: Text, plan: Plan, x: nat, line: nat)
    requires Proper(code, plan) && 0 < x <= |code| && plan[x - 1].Some? && plan[x - 1].value.end == x
    requires EditsIn(code, AllEdits(plan, x)) && EditsIn(code, AllEdits(plan, x - 1))
    ensures var edit := plan[x - 1].value;
      LineList(code, AllEdits(plan, x), line) == LineList(code, AllEdits(plan, x - 1), line)
        + if LineOf(code, edit.start) == line then [AsColumns(code, edit)] else []
  {
    assert AllEdits(plan, x)[..|AllEdits(plan, x)| - 1] == AllEdits(plan, x - 1);
  }

  /** Every edit of the line is listed. */
  lemma {:induction false} EditIsListed(code: Text, plan: Plan, x: nat, edit: Edit)
    requires Proper(code, plan) && x <= |code| && Owns(plan, edit) && edit.end <= x
    ensures EditsIn(code, AllEdits(plan, x))
    ensures AsColumns(code, edit) in LineList(code, AllEdits(plan, x), LineOf(code, edit.start))
  {
    AllEditsAreIn(code, plan, x);
    AllEditsAreIn(code, plan, x - 1);
    if edit.end == x {
      OwnsAt(plan, edit, x - 1);
      ListGrows(code, plan, x, LineOf(code, edit.start));
    } else {
      EditIsListed(code, plan, x - 1, edit);
      StaysListed(code, plan, x, LineOf(code, edit.start), AsColumns(code, edit));
    }
  }

  lemma StaysListed(code: Text, plan: Plan, x: nat, line: nat, column: ColumnEdit)
    requires Proper(code, plan) && 0 < x <= |code|
    requires EditsIn(code, AllEdits(plan, x - 1)) && EditsIn(code, AllEdits(plan, x))
    requires column in LineList(code, AllEdits(plan, x - 1), line)
    ensures column in LineList(code, AllEdits(plan, x), line)
  {
    if plan[x - 1].Some? && plan[x - 1].value.end == x { ListGrows(code, plan, x, line); }
  }

  /** One more unit of a line moves its end by what the unit becomes, in the text and in the columns. */
  lemma UntouchedColumn(code: Text, plan: Plan, x: nat, start: nat, list: seq<ColumnEdit>)
    requires Proper(code, plan) && start <= x < |code| && plan[x].None?
    requires InOrder(list) && Lists(code, plan, start, |code|, list)
    ensures Shifted(x - start + 1, list) == Shifted(x - start, list) + 1
  {
    forall i | 0 <= i < |list| ensures !CoversColumn(list[i], x - start) {
      assert Listed(code, plan, start, |code|, list[i]);
      if CoversColumn(list[i], x - start) { OwnsAt(plan, plan[start + list[i].column].value, x); }
    }
    ShiftPast(list, x - start, 0);
  }

  lemma ListedIsEdit(code: Text, plan: Plan, start: nat, column: ColumnEdit, edit: Edit)
    requires |plan| == |code| && Listed(code, plan, start, |code|, column) && Owns(plan, edit)
    requires start + column.column == edit.start
    ensures column.removed == edit.end - edit.start && column.inserted == |edit.text|
  {
    OwnsAt(plan, edit, edit.start);
  }

  lemma EditedColumn(code: Text, plan: Plan, x: nat, start: nat, list: seq<ColumnEdit>, i: nat)
    requires Proper(code, plan) && start <= x < |code| && plan[x].Some? && start <= plan[x].value.start
    requires InOrder(list) && Lists(code, plan, start, |code|, list)
    requires i < |list| && list[i].column == plan[x].value.start - start
    ensures Shifted(x - start + 1, list) - Shifted(x - start, list) == |Image(code, plan, x)|
  {
    assert Listed(code, plan, start, |code|, list[i]);
    ListedIsEdit(code, plan, start, list[i], plan[x].value);
    ShiftInside(list, x - start, 0, i);
  }

  /** An edit stands on one line. */
  lemma {:induction false} EditOnOneLine(code: Text, plan: Plan, x: nat)
    requires Proper(code, plan) && x < |code| && plan[x].Some?
    ensures LineOf(code, plan[x].value.start) == LineOf(code, x)
    ensures StartOfLine(code, plan[x].value.start) == StartOfLine(code, x) <= plan[x].value.start
  {
    var edit := plan[x].value;
    assert Replaces(code, edit);
    SameLine(code, edit.start, x);
    SameStart(code, edit.start, x);
  }

  /** Every edit of the line is in its list. */
  ghost predicate HoldsAll(code: Text, plan: Plan, line: nat, list: seq<ColumnEdit>)
    requires Proper(code, plan)
  {
    forall y :: 0 <= y < |code| && plan[y].Some? && LineOf(code, plan[y].value.start) == line ==>
      AsColumns(code, plan[y].value) in list
  }

  lemma {:induction false} ListHoldsAll(code: Text, plan: Plan, line: nat)
    requires Proper(code, plan) && EditsIn(code, AllEdits(plan, |code|))
    ensures HoldsAll(code, plan, line, LineList(code, AllEdits(plan, |code|), line))
  {
    forall y | 0 <= y < |code| && plan[y].Some? && LineOf(code, plan[y].value.start) == line
      ensures AsColumns(code, plan[y].value) in LineList(code, AllEdits(plan, |code|), line)
    {
      EditIsListed(code, plan, |code|, plan[y].value);
    }
  }

  /** Unit y moves the end of its line by as much in the text as in the columns. */
  ghost predicate Advances(code: Text, plan: Plan, start: nat, list: seq<ColumnEdit>, y: nat)
    requires |plan| == |code| && start <= y < |code|
  {
    Moved(code, plan, y + 1) - Moved(code, plan, y) == Shifted(y - start + 1, list) - Shifted(y - start, list)
  }

  lemma {:induction false} AllAdvance(code: Text, plan: Plan, start: nat, list: seq<ColumnEdit>, x: nat)
    requires |plan| == |code| && start <= x <= |code|
    requires forall y :: start <= y < x ==> Advances(code, plan, start, list, y)
    ensures Moved(code, plan, x) - Moved(code, plan, start) == Shifted(x - start, list) - Shifted(0, list)
  {
    if x > start {
      AllAdvance(code, plan, start, list, x - 1);
      assert Advances(code, plan, start, list, x - 1);
    }
  }

  lemma {:induction false} NextColumn(code: Text, plan: Plan, y: nat, line: nat, start: nat, list: seq<ColumnEdit>)
    requires Proper(code, plan) && start <= y < |code|
    requires LineOf(code, start) == line == LineOf(code, y) && StartOfLine(code, start) == start
    requires HoldsAll(code, plan, line, list) && InOrder(list) && Lists(code, plan, start, |code|, list)
    ensures Advances(code, plan, start, list, y)
  {
    if plan[y].Some? {
      EditOnOneLine(code, plan, y);
      SameStart(code, start, y);
      var i :| 0 <= i < |list| && list[i] == AsColumns(code, plan[y].value);
      EditedColumn(code, plan, y, start, list, i);
    } else {
      UntouchedColumn(code, plan, y, start, list);
    }
  }

  /** The edits of the whole plan, by line. */
  function LineEditsOf(code: Text, plan: Plan): LineEdits
    requires |plan| == |code| && EditsIn(code, AllEdits(plan, |code|))
  {
    ByLine(code, AllEdits(plan, |code|))
  }

  /** The line of an offset starts, in the result, where its start moved to. */
  lemma {:induction false} StartOfLineMoves(code: Text, plan: Plan, x: nat)
    requires Proper(code, plan) && x <= |code|
    ensures Moved(code, plan, x) <= |Rewritten(code, plan)|
    ensures StartOfLine(Rewritten(code, plan), Moved(code, plan, x)) == Moved(code, plan, StartOfLine(code, x))
  {
    LinesAreKept(code, plan, x);
    StartIsOnSameLine(code, x);
    StartMoves(code, plan, StartOfLine(code, x));
    StartOfLineInAll(Rewritten(code, plan), Moved(code, plan, x));
  }

  lemma ListOfLine(code: Text, plan: Plan, x: nat) returns (list: seq<ColumnEdit>)
    requires Proper(code, plan) && x <= |code|
    ensures EditsIn(code, AllEdits(plan, |code|))
    ensures list == OnLine(LineEditsOf(code, plan), LineOf(code, x))
    ensures InOrder(list) && Lists(code, plan, StartOfLine(code, x), |code|, list)
    ensures HoldsAll(code, plan, LineOf(code, x), list)
  {
    ListIsInOrder(code, plan, |code|, x);
    ListHoldsAll(code, plan, LineOf(code, x));
    ByLineIsLineList(code, AllEdits(plan, |code|), LineOf(code, x));
    list := LineList(code, AllEdits(plan, |code|), LineOf(code, x));
  }

  /** The column of an offset moves by what the units before it on its line become. */
  lemma {:induction false} ColumnsMove(code: Text, plan: Plan, x: nat, start: nat, list: seq<ColumnEdit>)
    requires Proper(code, plan) && x <= |code| && start == StartOfLine(code, x)
    requires InOrder(list) && Lists(code, plan, start, |code|, list) && HoldsAll(code, plan, LineOf(code, x), list)
    ensures Moved(code, plan, x) - Moved(code, plan, start) == Shifted(x - start, list)
  {
    StartIsOnSameLine(code, x);
    forall y | start <= y < x ensures Advances(code, plan, start, list, y) {
      LineOfIsMonotone(code, start, y);
      LineOfIsMonotone(code, y, x);
      NextColumn(code, plan, y, LineOf(code, x), start, list);
    }
    AllAdvance(code, plan, start, list, x);
  }

  lemma MovedByList(code: Text, plan: Plan, x: nat) returns (list: seq<ColumnEdit>)
    requires Proper(code, plan) && x <= |code|
    ensures EditsIn(code, AllEdits(plan, |code|))
    ensures list == OnLine(LineEditsOf(code, plan), LineOf(code, x))
    ensures var start := StartOfLine(code, x);
      Moved(code, plan, x) - Moved(code, plan, start) == Shifted(x - start, list)
  {
    list := ListOfLine(code, plan, x);
    ColumnsMove(code, plan, x, StartOfLine(code, x), list);
  }

  lemma {:induction false} ColumnLands(code: Text, plan: Plan, x: nat)
    requires Proper(code, plan) && x <= |code|
    ensures EditsIn(code, AllEdits(plan, |code|))
    ensures var out, y, line := Rewritten(code, plan), Moved(code, plan, x), LineOf(code, x);
      && y <= |out|
      && y - StartOfLine(out, y) == Shifted(x - StartOfLine(code, x), OnLine(LineEditsOf(code, plan), line))
  {
    var list := MovedByList(code, plan, x);
    StartOfLineMoves(code, plan, x);
  }

  /**
   End to end for one offset: it stays on its line, and its column there is the shifted column of its
   old one. Where it is outside the replaced ranges, the same unit stands there.
  */
  lemma {:induction false} OffsetsMove(code: Text, plan: Plan, x: nat)
    requires Proper(code, plan) && x <= |code|
    ensures EditsIn(code, AllEdits(plan, |code|))
    ensures var out, y, line := Rewritten(code, plan), Moved(code, plan, x), LineOf(code, x);
      && y <= |out| && LineOf(out, y) == line
      && y - StartOfLine(out, y) == Shifted(x - StartOfLine(code, x), OnLine(LineEditsOf(code, plan), line))
      && (x < |code| && plan[x].None? ==> y < |out| && out[y] == code[x])
  {
    ColumnLands(code, plan, x);
    LinesAreKept(code, plan, x);
    if x < |code| && plan[x].None? { SameUnit(code, plan, x); }
  }
}

/**
 Moving the generated columns of a source map's mappings to where their characters sit after the edits
 on each line (ascii-only-output.ts).
*/
module Columns {
  import opened Wrappers
  import opened Vlq

  /** From `column` on, `removed` units of a line make way for `inserted` others; columns count the old line's units. */
  datatype ColumnEdit = ColumnEdit(column: nat, removed: nat, inserted: nat)

  type LineEdits = map<nat, seq<ColumnEdit>>

  // -------------------------------------------------------------- one column

  function ShiftedFrom(column: int, edits: seq<ColumnEdit>, delta: int): int
  {
    if edits == [] || edits[0].column >= column then column + delta
    else if column < edits[0].column + edits[0].removed then edits[0].column + delta
    else ShiftedFrom(column, edits[1..], delta + edits[0].inserted - edits[0].removed)
  }

  function Shifted(column: int, edits: seq<ColumnEdit>): int
  {
    ShiftedFrom(column, edits, 0)
  }

  method ShiftedColumn(column: int, edits: seq<ColumnEdit>) returns (r: int)
    ensures r == Shifted(column, edits)
  {
    var delta := 0;
    assert edits[0..] == edits;
    for i := 0 to |edits|
      invariant Shifted(column, edits) == ShiftedFrom(column, edits[i..], delta)
    {
      var edit := edits[i];
      if edit.column >= column { break; }
      if column < edit.column + edit.removed { return edit.column + delta; }
      assert edits[i..][1..] == edits[i + 1..];
      delta := delta + edit.inserted - edit.removed;
    }
    return column + delta;
  }

  // -------------------------------------------------------------------- text

  function Split(text: string, separator: char): (parts: seq<string>)
    ensures parts != []
  {
    if text == "" then [""]
    else
      var rest := Split(text[..|text| - 1], separator);
      var c := text[|text| - 1];
      if c == separator then rest + [""]
      else rest[|rest| - 1 := rest[|rest| - 1] + [c]]
  }

  function Join(parts: seq<string>, separator: char): string
  {
    if parts == [] then ""
    else if |parts| == 1 then parts[0]
    else Join(parts[..|parts| - 1], separator) + [separator] + parts[|parts| - 1]
  }

  // ---------------------------------------------------------------- one line

  /** The fields of each segment, or the first bad digit. */
  function DecodeAll(parts: seq<string>): (r: Result<seq<seq<int>>, VlqError>)
    ensures r.Success? ==> |r.value| == |parts|
  {
    if parts == [] then Success([])
    else
      match DecodeAll(parts[..|parts| - 1])
      case Failure(error) => Failure(error)
      case Success(segments) =>
        match Decode(parts[|parts| - 1])
        case Failure(error) => Failure(error)
        case Success(fields) => Success(segments + [fields])
  }

  /**
   The sum a field is added to. A segment with no fields makes it NaN, here `None`, for the rest of
   the line.
  */
  function Advance(column: Option<int>, fields: seq<int>): Option<int>
  {
    if column.None? || fields == [] then None else Some(column.value + fields[0])
  }

  /** The absolute column of the last segment, or 0 before the first. */
  function LastColumn(segments: seq<seq<int>>): Option<int>
  {
    if segments == [] then Some(0)
    else Advance(LastColumn(segments[..|segments| - 1]), segments[|segments| - 1])
  }

  function Shift(column: Option<int>, edits: seq<ColumnEdit>): Option<int>
  {
    if column.None? then None else Some(Shifted(column.value, edits))
  }

  /** `to - from` as a field: a NaN difference is encoded like 0. */
  function Difference(to: Option<int>, from: Option<int>): int
  {
    if to.Some? && from.Some? then to.value - from.value else 0
  }

  /** A segment's fields after the shift: the first is the distance between shifted columns, the rest are kept. */
  function MovedFields(column: Option<int>, fields: seq<int>, edits: seq<ColumnEdit>): seq<int>
  {
    [Difference(Shift(Advance(column, fields), edits), Shift(column, edits))]
    + if fields == [] then [] else fields[1..]
  }

  function ShiftedSegments(segments: seq<seq<int>>, edits: seq<ColumnEdit>): (r: seq<seq<int>>)
    ensures |r| == |segments|
  {
    if segments == [] then []
    else
      var n := |segments| - 1;
      ShiftedSegments(segments[..n], edits) + [MovedFields(LastColumn(segments[..n]), segments[n], edits)]
  }

  function EncodeAll(segments: seq<seq<int>>): (r: seq<string>)
    ensures |r| == |segments|
  {
    if segments == [] then []
    else EncodeAll(segments[..|segments| - 1]) + [Encode(segments[|segments| - 1])]
  }

  function ShiftedLine(line: string, edits: seq<ColumnEdit>): Result<string, VlqError>
  {
    match DecodeAll(Split(line, ','))
    case Failure(error) => Failure(error)
    case Success(segments) => Success(Join(EncodeAll(ShiftedSegments(segments, edits)), ','))
  }

  lemma {:induction false} DecodeAllFails(parts: seq<string>, i: nat)
    requires i <= |parts| && DecodeAll(parts[..i]).Failure?
    ensures DecodeAll(parts) == DecodeAll(parts[..i])
    decreases |parts| - i
  {
    if i == |parts| {
      assert parts[..i] == parts;
    } else {
      assert parts[..i + 1][..i] == parts[..i];
      DecodeAllFails(parts, i + 1);
    }
  }

  lemma {:induction false} LineAppend(segments: seq<seq<int>>, fields: seq<int>, edits: seq<ColumnEdit>)
    ensures var moved := MovedFields(LastColumn(segments), fields, edits);
      && LastColumn(segments + [fields]) == Advance(LastColumn(segments), fields)
      && EncodeAll(ShiftedSegments(segments + [fields], edits))
         == EncodeAll(ShiftedSegments(segments, edits)) + [Encode(moved)]
  {
    assert (segments + [fields])[..|segments|] == segments;
    var done := ShiftedSegments(segments, edits);
    var moved := MovedFields(LastColumn(segments), fields, edits);
    assert ShiftedSegments(segments + [fields], edits) == done + [moved];
    assert (done + [moved])[..|done|] == done;
  }

  /** One turn of the loop over a line's segments. */
  method ShiftSegment(fields: seq<int>, previousColumn: Option<int>, previousShifted: Option<int>,
                      edits: seq<ColumnEdit>)
    returns (column: Option<int>, shifted: Option<int>, text: string)
    requires previousShifted == Shift(previousColumn, edits)
    ensures column == Advance(previousColumn, fields)
    ensures shifted == Shift(column, edits)
    ensures text == Encode(MovedFields(previousColumn, fields, edits))
  {
    column, shifted := None, None;
    if previousColumn.Some? && fields != [] {
      var position := previousColumn.value + fields[0];
      var moved := ShiftedColumn(position, edits);
      column, shifted := Some(position), Some(moved);
    }
    text := EncodeVlqSegment([Difference(shifted, previousShifted)] + if fields == [] then [] else fields[1..]);
  }

  lemma DecodeAllAppend(parts: seq<string>, i: nat)
    requires i < |parts|
    ensures DecodeAll(parts[..i + 1]) ==
      match DecodeAll(parts[..i])
      case Failure(error) => Failure(error)
      case Success(segments) =>
        match Decode(parts[i])
        case Failure(error) => Failure(error)
        case Success(fields) => Success(segments + [fields])
  {
    assert parts[..i + 1][..i] == parts[..i];
  }

  method ShiftLine(line: string, edits: seq<ColumnEdit>) returns (r: Result<string, VlqError>)
    ensures r == ShiftedLine(line, edits)
  {
    var parts := Split(line, ',');
    var previousColumn: Option<int>, previousShifted: Option<int> := Some(0), Some(0);
    var out: seq<string> := [];
    ghost var segments: seq<seq<int>> := [];
    for i := 0 to |parts|
      invariant |segments| == i && DecodeAll(parts[..i]) == Success(segments)
      invariant previousColumn == LastColumn(segments)
      invariant previousShifted == Shift(previousColumn, edits)
      invariant out == EncodeAll(ShiftedSegments(segments, edits))
    {
      DecodeAllAppend(parts, i);
      var decoded := DecodeVlqSegment(parts[i]);
      if decoded.Failure? {
        DecodeAllFails(parts, i + 1);
        return Failure(decoded.error);
      }
      LineAppend(segments, decoded.value, edits);
      var text;
      previousColumn, previousShifted, text := ShiftSegment(decoded.value, previousColumn, previousShifted, edits);
      out := out + [text];
      segments := segments + [decoded.value];
    }
    assert parts[..|parts|] == parts;
    r := Success(Join(out, ','));
  }

  // ---------------------------------------------------------- all the lines

  function NewLine(line: string, k: nat, lineEdits: LineEdits): Result<string, VlqError>
  {
    if k !in lineEdits || line == "" then Success(line) else ShiftedLine(line, lineEdits[k])
  }

  function NewLines(lines: seq<string>, lineEdits: LineEdits): (r: Result<seq<string>, VlqError>)
    ensures r.Success? ==> |r.value| == |lines|
  {
    if lines == [] then Success([])
    else
      var n := |lines| - 1;
      match NewLines(lines[..n], lineEdits)
      case Failure(error) => Failure(error)
      case Success(done) =>
        match NewLine(lines[n], n, lineEdits)
        case Failure(error) => Failure(error)
        case Success(line) => Success(done + [line])
  }

  function ShiftedMappings(mappings: string, lineEdits: LineEdits): Result<string, VlqError>
  {
    match NewLines(Split(mappings, ';'), lineEdits)
    case Failure(error) => Failure(error)
    case Success(lines) => Success(Join(lines, ';'))
  }

  lemma {:induction false} NewLinesFails(lines: seq<string>, i: nat, lineEdits: LineEdits)
    requires i <= |lines| && NewLines(lines[..i], lineEdits).Failure?
    ensures NewLines(lines, lineEdits) == NewLines(lines[..i], lineEdits)
    decreases |lines| - i
  {
    if i == |lines| {
      assert lines[..i] == lines;
    } else {
      assert lines[..i + 1][..i] == lines[..i];
      NewLinesFails(lines, i + 1, lineEdits);
    }
  }

  lemma {:induction false} NewLinesAppend(lines: seq<string>, i: nat, lineEdits: LineEdits)
    requires i < |lines|
    ensures NewLines(lines[..i + 1], lineEdits) ==
      match NewLines(lines[..i], lineEdits)
      case Failure(error) => Failure(error)
      case Success(done) =>
        match NewLine(lines[i], i, lineEdits)
        case Failure(error) => Failure(error)
        case Success(line) => Success(done + [line])
  {
    assert lines[..i + 1][..i] == lines[..i];
  }

  method ShiftMappingColumns(mappings: string, lineEdits: LineEdits) returns (r: Result<string, VlqError>)
    ensures r == ShiftedMappings(mappings, lineEdits)
  {
    var lines := Split(mappings, ';');
    var out: seq<string> := [];
    for i := 0 to |lines|
      invariant NewLines(lines[..i], lineEdits) == Success(out)
    {
      NewLinesAppend(lines, i, lineEdits);
      var line := Success(lines[i]);
      if i in lineEdits && lines[i] != "" {
        line := ShiftLine(lines[i], lineEdits[i]);
      }
      if line.Failure? {
        NewLinesFails(lines, i + 1, lineEdits);
        return Failure(line.error);
      }
      out := out + [line.value];
    }
    assert lines[..|lines|] == lines;
    r := Success(Join(out, ';'));
  }
}

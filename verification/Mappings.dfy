/**
 What shifting a mappings text does to the mappings it encodes: every absolute generated column moves as
 `Shifted` says, and every other field, segment and line stays as it was.
*/
module Mappings {
  import opened Wrappers
  import opened Vlq
  import opened Columns

  // ------------------------------------------------------- splitting, joining

  lemma {:induction false} SplitPart(text: string, part: string, separator: char)
    requires separator !in part
    ensures var parts := Split(text, separator);
      Split(text + part, separator) == parts[|parts| - 1 := parts[|parts| - 1] + part]
  {
    var parts := Split(text, separator);
    if part == "" {
      assert text + part == text;
      assert parts[|parts| - 1] + part == parts[|parts| - 1];
    } else {
      var n := |part| - 1;
      SplitPart(text, part[..n], separator);
      assert (text + part)[..|text + part| - 1] == text + part[..n];
      assert parts[|parts| - 1] + part == parts[|parts| - 1] + part[..n] + [part[n]];
    }
  }

  lemma {:induction false} SplitSeparated(text: string, part: string, separator: char)
    requires separator !in part
    ensures Split(text + [separator] + part, separator) == Split(text, separator) + [part]
  {
    assert (text + [separator])[..|text|] == text;
    SplitPart(text + [separator], part, separator);
    assert "" + part == part;
  }

  ghost predicate Free(parts: seq<string>, c: char)
  {
    forall i :: 0 <= i < |parts| ==> c !in parts[i]
  }

  lemma {:induction false} SplitOne(part: string, separator: char)
    requires separator !in part
    ensures Split(part, separator) == [part]
  {
    SplitPart("", part, separator);
    assert "" + part == part;
  }

  lemma {:induction false} SplitJoin(parts: seq<string>, separator: char)
    requires parts != [] && Free(parts, separator)
    ensures Split(Join(parts, separator), separator) == parts
  {
    var n := |parts| - 1;
    if n == 0 {
      SplitOne(parts[0], separator);
      assert parts == [parts[0]];
    } else {
      var front := parts[..n];
      SplitJoin(front, separator);
      SplitSeparated(Join(front, separator), parts[n], separator);
      assert parts == front + [parts[n]];
    }
  }

  lemma {:induction false} SplitIsFree(text: string, separator: char, c: char)
    requires c == separator || c !in text
    ensures Free(Split(text, separator), c)
  {
    if text != "" {
      SplitIsFree(text[..|text| - 1], separator, c);
    }
  }

  lemma {:induction false} JoinIsFree(parts: seq<string>, separator: char, c: char)
    requires Free(parts, c) && c != separator
    ensures c !in Join(parts, separator)
  {
    if |parts| > 1 {
      JoinIsFree(parts[..|parts| - 1], separator, c);
    }
  }

  lemma {:induction false} DigitsAreFree(value: int, c: char)
    requires DigitOf(c).None?
    ensures c !in Digits(value)
    decreases ToUint32(value)
  {
    var rest := ShiftRightFive(value);
    if rest > 0 {
      DigitsAreFree(rest, c);
      AlphabetRoundTrip(LowFive(value) + 32, c);
    } else {
      AlphabetRoundTrip(LowFive(value), c);
    }
  }

  lemma {:induction false} EncodeIsFree(values: seq<int>, c: char)
    requires DigitOf(c).None?
    ensures c !in Encode(values)
  {
    if values != [] {
      EncodeIsFree(values[..|values| - 1], c);
      DigitsAreFree(Folded(values[|values| - 1]), c);
    }
  }

  lemma {:induction false} EncodeAllIsFree(segments: seq<seq<int>>, c: char)
    requires DigitOf(c).None?
    ensures Free(EncodeAll(segments), c)
  {
    if segments != [] {
      EncodeAllIsFree(segments[..|segments| - 1], c);
      EncodeIsFree(segments[|segments| - 1], c);
    }
  }

  // ------------------------------------------------------------------ a line

  function DecodeLine(line: string): Result<seq<seq<int>>, VlqError>
  {
    DecodeAll(Split(line, ','))
  }

  ghost predicate AllInRange(segments: seq<seq<int>>)
  {
    forall i :: 0 <= i < |segments| ==> InRange(segments[i])
  }

  lemma {:induction false} DecodeAllAppended(parts: seq<string>, part: string, segments: seq<seq<int>>,
                                             fields: seq<int>)
    requires DecodeAll(parts) == Success(segments) && Decode(part) == Success(fields)
    ensures DecodeAll(parts + [part]) == Success(segments + [fields])
  {
    assert (parts + [part])[..|parts|] == parts;
  }

  lemma {:induction false} EncodeAllStep(segments: seq<seq<int>>)
    requires segments != []
    ensures var n := |segments| - 1;
      EncodeAll(segments) == EncodeAll(segments[..n]) + [Encode(segments[n])]
  {
  }

  lemma {:induction false} DecodeEncodeAll(segments: seq<seq<int>>)
    requires AllInRange(segments)
    ensures DecodeAll(EncodeAll(segments)) == Success(segments)
  {
    if segments != [] {
      var n := |segments| - 1;
      var init, last := segments[..n], segments[n];
      assert segments == init + [last];
      DecodeEncodeAll(init);
      assert Decode(Encode(last)) == Success(last) by { RoundTripIffInRange(last); }
      DecodeAllAppended(EncodeAll(init), Encode(last), init, last);
      EncodeAllStep(segments);
    }
  }

  lemma {:induction false} DecodedAllInRange(parts: seq<string>)
    ensures DecodeAll(parts).Success? ==> AllInRange(DecodeAll(parts).value)
  {
    if parts != [] {
      DecodedAllInRange(parts[..|parts| - 1]);
      DecodedInRange(parts[|parts| - 1], 0, 0);
    }
  }

  /** Every segment has a generated column. */
  ghost predicate Complete(segments: seq<seq<int>>)
  {
    forall i :: 0 <= i < |segments| ==> segments[i] != []
  }

  lemma {:induction false} CompleteHasColumn(segments: seq<seq<int>>)
    requires Complete(segments)
    ensures LastColumn(segments).Some?
  {
    if segments != [] { CompleteHasColumn(segments[..|segments| - 1]); }
  }

  /** The absolute column of segment `i`. */
  function ColumnAt(segments: seq<seq<int>>, i: nat): Option<int>
    requires i < |segments|
  {
    LastColumn(segments[..i + 1])
  }

  /** The shift puts every mapped character of the line at a column a 32-bit difference can reach. */
  ghost predicate Reachable(segments: seq<seq<int>>, edits: seq<ColumnEdit>)
  {
    forall i {:trigger segments[..i]} :: 0 <= i <= |segments| ==>
      Shift(LastColumn(segments[..i]), edits).Some?
      && 0 <= Shift(LastColumn(segments[..i]), edits).value < 0x8000_0000
  }

  lemma ReachablePrefix(segments: seq<seq<int>>, edits: seq<ColumnEdit>)
    requires segments != [] && Reachable(segments, edits)
    ensures Reachable(segments[..|segments| - 1], edits)
  {
    var n := |segments| - 1;
    forall i | 0 <= i <= n
      ensures Shift(LastColumn(segments[..n][..i]), edits).Some?
           && 0 <= Shift(LastColumn(segments[..n][..i]), edits).value < 0x8000_0000
    {
      assert segments[..n][..i] == segments[..i];
    }
  }

  /** The shifted fields still differ by less than 2^31. */
  lemma {:induction false} ShiftedInRange(segments: seq<seq<int>>, edits: seq<ColumnEdit>)
    requires AllInRange(segments) && Reachable(segments, edits)
    ensures AllInRange(ShiftedSegments(segments, edits))
  {
    if segments != [] {
      var n := |segments| - 1;
      ReachablePrefix(segments, edits);
      ShiftedInRange(segments[..n], edits);
      assert segments[..n + 1] == segments;
    }
  }

  /** Adding up the shifted fields gives the shifted columns. */
  lemma {:induction false} ShiftedColumnsAddUp(segments: seq<seq<int>>, edits: seq<ColumnEdit>)
    requires Complete(segments)
    ensures Complete(ShiftedSegments(segments, edits))
    ensures LastColumn(ShiftedSegments(segments, edits)) == Shift(LastColumn(segments), edits)
  {
    if segments != [] {
      var n := |segments| - 1;
      ShiftedColumnsAddUp(segments[..n], edits);
      CompleteHasColumn(segments[..n]);
      assert ShiftedSegments(segments, edits)[..n] == ShiftedSegments(segments[..n], edits);
    }
  }

  lemma {:induction false} ShiftedPrefix(segments: seq<seq<int>>, edits: seq<ColumnEdit>, i: nat)
    requires i <= |segments|
    ensures ShiftedSegments(segments, edits)[..i] == ShiftedSegments(segments[..i], edits)
  {
    if i < |segments| {
      var n := |segments| - 1;
      ShiftedPrefix(segments[..n], edits, i);
      assert segments[..n][..i] == segments[..i];
    } else {
      assert segments[..i] == segments;
    }
  }

  lemma {:induction false} OtherFieldsKept(segments: seq<seq<int>>, edits: seq<ColumnEdit>, i: nat)
    requires i < |segments| && segments[i] != []
    ensures ShiftedSegments(segments, edits)[i] != []
    ensures ShiftedSegments(segments, edits)[i][1..] == segments[i][1..]
  {
    if i < |segments| - 1 {
      OtherFieldsKept(segments[..|segments| - 1], edits, i);
    }
  }

  /** `moved` is `segments` with each absolute column shifted and everything else kept. */
  ghost predicate MovedBy(segments: seq<seq<int>>, moved: seq<seq<int>>, edits: seq<ColumnEdit>)
  {
    && |moved| == |segments|
    && forall i :: 0 <= i < |segments| ==>
      && moved[i] != [] && segments[i] != []
      && moved[i][1..] == segments[i][1..]
      && ColumnAt(moved, i) == Shift(ColumnAt(segments, i), edits)
  }

  lemma {:induction false} ShiftedIsMoved(segments: seq<seq<int>>, edits: seq<ColumnEdit>)
    requires Complete(segments)
    ensures MovedBy(segments, ShiftedSegments(segments, edits), edits)
  {
    forall i | 0 <= i < |segments|
      ensures ShiftedSegments(segments, edits)[i] != []
           && ShiftedSegments(segments, edits)[i][1..] == segments[i][1..]
           && ColumnAt(ShiftedSegments(segments, edits), i) == Shift(ColumnAt(segments, i), edits)
    {
      OtherFieldsKept(segments, edits, i);
      ShiftedPrefix(segments, edits, i + 1);
      ShiftedColumnsAddUp(segments[..i + 1], edits);
    }
  }

  /** What the format promises of a line, and a rewritten line short enough for 32-bit differences. */
  ghost predicate WellFormed(line: string, edits: seq<ColumnEdit>)
  {
    var decoded := DecodeLine(line);
    decoded.Success? && Complete(decoded.value) && Reachable(decoded.value, edits)
  }

  lemma LineIsMoved(line: string, edits: seq<ColumnEdit>)
    requires WellFormed(line, edits)
    ensures var r := ShiftedLine(line, edits);
      && r.Success? && ';' !in r.value
      && DecodeLine(r.value).Success?
      && MovedBy(DecodeLine(line).value, DecodeLine(r.value).value, edits)
  {
    var segments := DecodeLine(line).value;
    var moved := ShiftedSegments(segments, edits);
    DecodedAllInRange(Split(line, ','));
    ShiftedInRange(segments, edits);
    DecodeEncodeAll(moved);
    EncodeAllIsFree(moved, ',');
    EncodeAllIsFree(moved, ';');
    SplitJoin(EncodeAll(moved), ',');
    JoinIsFree(EncodeAll(moved), ',', ';');
    ShiftedIsMoved(segments, edits);
  }

  // -------------------------------------------------------------- every line

  ghost predicate WellFormedLines(lines: seq<string>, lineEdits: LineEdits)
  {
    forall k :: 0 <= k < |lines| ==> k in lineEdits && lines[k] != "" ==> WellFormed(lines[k], lineEdits[k])
  }

  /** What becomes of line `k`: moved where it has edits, verbatim where it has none or is empty. */
  ghost predicate LineMoved(line: string, moved: string, k: nat, lineEdits: LineEdits)
  {
    if k !in lineEdits || line == "" then moved == line
    else
      && DecodeLine(line).Success? && DecodeLine(moved).Success?
      && MovedBy(DecodeLine(line).value, DecodeLine(moved).value, lineEdits[k])
  }

  /** Each line of the one list became the same line of the other. */
  ghost predicate AllMoved(lines: seq<string>, moved: seq<string>, lineEdits: LineEdits)
  {
    |moved| == |lines| && forall k :: 0 <= k < |lines| ==> LineMoved(lines[k], moved[k], k, lineEdits)
  }

  lemma OneLineIsMoved(lines: seq<string>, k: nat, lineEdits: LineEdits)
    requires WellFormedLines(lines, lineEdits) && Free(lines, ';') && k < |lines|
    ensures var r := NewLine(lines[k], k, lineEdits);
      r.Success? && ';' !in r.value && LineMoved(lines[k], r.value, k, lineEdits)
  {
    if k in lineEdits && lines[k] != "" { LineIsMoved(lines[k], lineEdits[k]); }
  }

  predicate Becomes(line: string, k: nat, lineEdits: LineEdits, next: string)
  {
    NewLine(line, k, lineEdits) == Success(next)
  }

  /** The new lines, each given by its own. */
  lemma {:induction false} NewLinesAre(lines: seq<string>, lineEdits: LineEdits, moved: seq<string>)
    requires |moved| == |lines| && forall k :: 0 <= k < |lines| ==> Becomes(lines[k], k, lineEdits, moved[k])
    ensures NewLines(lines, lineEdits) == Success(moved)
  {
    if lines != [] {
      var n := |lines| - 1;
      NewLinesAre(lines[..n], lineEdits, moved[..n]);
      assert Becomes(lines[n], n, lineEdits, moved[n]);
      assert moved == moved[..n] + [moved[n]];
    }
  }

  function ValueOf(r: Result<string, VlqError>): string
  {
    if r.Success? then r.value else ""
  }

  lemma MovedLines(lines: seq<string>, lineEdits: LineEdits) returns (moved: seq<string>)
    requires WellFormedLines(lines, lineEdits) && Free(lines, ';')
    ensures AllMoved(lines, moved, lineEdits) && Free(moved, ';')
    ensures forall k :: 0 <= k < |lines| ==> Becomes(lines[k], k, lineEdits, moved[k])
  {
    moved := seq(|lines|, k requires 0 <= k < |lines| => ValueOf(NewLine(lines[k], k, lineEdits)));
    forall k | 0 <= k < |lines|
      ensures Becomes(lines[k], k, lineEdits, moved[k]) && ';' !in moved[k]
      ensures LineMoved(lines[k], moved[k], k, lineEdits)
    {
      OneLineIsMoved(lines, k, lineEdits);
    }
  }

  lemma {:induction false} LinesAreMoved(lines: seq<string>, lineEdits: LineEdits)
    requires WellFormedLines(lines, lineEdits) && Free(lines, ';')
    ensures var r := NewLines(lines, lineEdits);
      r.Success? && Free(r.value, ';') && AllMoved(lines, r.value, lineEdits)
  {
    var moved := MovedLines(lines, lineEdits);
    NewLinesAre(lines, lineEdits, moved);
  }

  /**
   The shifted mappings decode to the same lines and segments, each absolute column where `Shifted` puts
   it and each other field as it was.
  */
  lemma {:induction false} MappingsAreMoved(mappings: string, lineEdits: LineEdits)
    requires WellFormedLines(Split(mappings, ';'), lineEdits)
    ensures var r := ShiftedMappings(mappings, lineEdits);
      r.Success? && AllMoved(Split(mappings, ';'), Split(r.value, ';'), lineEdits)
  {
    var lines := Split(mappings, ';');
    SplitIsFree(mappings, ';', ';');
    LinesAreMoved(lines, lineEdits);
    SplitJoin(NewLines(lines, lineEdits).value, ';');
  }
}

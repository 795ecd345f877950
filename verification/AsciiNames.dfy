/**
 What the ASCII rewrite means between literals: read with the escapes an identifier may hold (section 12.7 of
 ECMA-262), the result is the original text, unit for unit, but that white space above U+007F is a space.
*/
module AsciiNames {
  import opened Wrappers
  import opened Sequences
  import opened CodeUnits
  import opened StringLiterals
  import opened EditPlan
  import opened AsciiRewrite
  import opened AsciiTheorems

  // ------------------------------------------------------ reading names

  /** The white space above U+007F, line terminators aside (table 35 of ECMA-262), and the byte order mark. */
  const WHITE_SPACE: seq<Unit> := [
    0x00a0, 0x1680, 0x2000, 0x2001, 0x2002, 0x2003, 0x2004, 0x2005, 0x2006, 0x2007, 0x2008, 0x2009, 0x200a,
    0x202f, 0x205f, 0x3000, 0xfeff]

  /** The text with each such white space as one space. */
  function Blanked(t: Text): (r: Text)
    ensures |r| == |t|
  {
    seq(|t|, i requires 0 <= i < |t| => if t[i] in WHITE_SPACE then SPACE else t[i])
  }

  /** The identifier escape at the front: `\uXXXX` or `\u{...}`, and the UTF-16 units it stands for. */
  function NameEscape(t: Text): (r: Option<Sequence>)
    ensures r.Some? ==> 2 <= r.value.length <= |t|
  {
    if |t| < 3 || t[0] != BACKSLASH || t[1] != 0x75 then None
    else if t[2] == OPEN_BRACE then BracedSequence(t)
    else if |t| >= 6 && AllHex(t[2..6]) then Some(Sequence(6, [HexUnit(t[2..6])]))
    else None
  }

  /** The text with its identifier escapes read. */
  function Names(t: Text): Text
    decreases |t|
  {
    if t == [] then []
    else
      match NameEscape(t)
      case None => [t[0]] + Names(t[1..])
      case Some(escape) => escape.value + Names(t[escape.length..])
  }

  lemma {:induction false} NamesWithoutEscapes(t: Text)
    requires BACKSLASH !in t
    ensures Names(t) == t
  {
    if t != [] {
      NamesWithoutEscapes(t[1..]);
      assert [t[0]] + t[1..] == t;
    }
  }

  // ------------------------------------------- the escapes the rewrite writes

  lemma {:induction false} NamesPlain(u: Unit, rest: Text)
    requires u != BACKSLASH
    ensures Names([u] + rest) == [u] + Names(rest)
  {
    assert ([u] + rest)[1..] == rest;
  }

  lemma {:induction false} NamesEscape(escape: Text, rest: Text, value: Text)
    requires NameEscape(escape + rest) == Some(Sequence(|escape|, value))
    ensures Names(escape + rest) == value + Names(rest)
  {
    assert (escape + rest)[|escape|..] == rest;
  }

  lemma {:induction false} UnicodeEscapeIsRead(u: Unit, rest: Text)
    ensures Names(UnicodeEscape(u) + rest) == [u] + Names(rest)
  {
    UnicodeEscapeSpells(u);
    var t := UnicodeEscape(u) + rest;
    assert t[2..6] == UnicodeEscape(u)[2..];
    assert IsHexDigit(UnicodeEscape(u)[2..][0]);
    NamesEscape(UnicodeEscape(u), rest, [u]);
  }

  lemma CodePointIsUtf16(high: Unit, low: Unit)
    requires High(high) && Low(low)
    ensures CodePoint(high, low) <= 0x10ffff && Utf16(CodePoint(high, low)) == [high, low]
  {
  }

  lemma BracedIsRead(n: nat, rest: Text)
    requires n <= 0x10ffff
    ensures NameEscape(CodePointEscape(n) + rest) == Some(Sequence(|CodePointEscape(n)|, Utf16(n)))
  {
    CodePointEscapeSpells(n);
    var escape := CodePointEscape(n);
    var t, end := escape + rest, |escape| - 1;
    assert t[..3] == escape[..3] == [BACKSLASH, 0x75, OPEN_BRACE];
    assert t[0] == t[..3][0] && t[1] == t[..3][1] && t[2] == t[..3][2];
    assert t[3..end] == escape[3..end];
    HexEndAt(t, 3, end);
  }

  lemma {:induction false} PairIsRead(high: Unit, low: Unit, rest: Text)
    requires High(high) && Low(low)
    ensures Names(CodePointEscape(CodePoint(high, low)) + rest) == [high, low] + Names(rest)
  {
    CodePointIsUtf16(high, low);
    BracedIsRead(CodePoint(high, low), rest);
    NamesEscape(CodePointEscape(CodePoint(high, low)), rest, [high, low]);
  }

  lemma WhitespaceIsTabled(u: Unit)
    requires Escapable(u)
    ensures Whitespace(u) <==> u in WHITE_SPACE
  {
  }

  // ------------------------------------------------ escapes that were there

  /** No escape goes on with it. */
  predicate Breaks(t: Text)
  {
    t == [] || (!IsHexDigit(t[0]) && t[0] != CLOSE_BRACE && t[0] != OPEN_BRACE && t[0] != 0x75)
  }

  lemma {:induction false} HexEndBreaks(a: Text, r: Text, from: nat)
    requires from <= |a| && Breaks(r)
    ensures HexEnd(a + r, from) == HexEnd(a, from)
    decreases |a| - from
  {
    if from < |a| && IsHexDigit(a[from]) { HexEndBreaks(a, r, from + 1); }
  }

  lemma BracedBreaks(a: Text, r: Text)
    requires |a| > 2 && Breaks(r)
    ensures BracedSequence(a + r) == BracedSequence(a)
  {
    HexEndBreaks(a, r, 3);
    var end := HexEnd(a, 3);
    assert (a + r)[3..end] == a[3..end];
  }

  lemma ShortEscapeBreaks(a: Text, r: Text)
    requires 0 < |a| < 3 && Breaks(r)
    ensures NameEscape(a + r).None?
  {
    var t := a + r;
    if |a| == 2 && r != [] && |t| >= 6 { assert t[2] == r[0] == t[2..6][0]; }
  }

  lemma HexBreaks(a: Text, r: Text)
    requires 2 < |a| && Breaks(r)
    ensures |a + r| >= 6 && AllHex((a + r)[2..6]) <==> |a| >= 6 && AllHex(a[2..6])
    ensures |a| >= 6 ==> (a + r)[2..6] == a[2..6]
  {
    if |a| >= 6 {
      assert (a + r)[2..6] == a[2..6];
    } else if |a + r| >= 6 {
      assert (a + r)[2..6][|a| - 2] == r[0];
    }
  }

  /** Whether an escape begins a text, and which, is settled before the text breaks. */
  lemma EscapeBreaks(a: Text, r: Text)
    requires a != [] && Breaks(r)
    ensures NameEscape(a + r) == NameEscape(a)
  {
    if |a| < 3 {
      ShortEscapeBreaks(a, r);
    } else {
      BracedBreaks(a, r);
      HexBreaks(a, r);
    }
  }

  // ---------------------------------------------------- between the literals

  /** What offsets `from` to `end` become. */
  function Images(code: Text, plan: Plan, from: nat, end: nat): Text
    requires from <= end <= |code| && |plan| == |code|
    decreases end - from
  {
    if from == end then [] else Image(code, plan, from) + Images(code, plan, from + 1, end)
  }

  lemma {:induction false} ImagesComeOut(code: Text, plan: Plan, from: nat, end: nat)
    requires from <= end <= |code| && |plan| == |code|
    ensures Out(code, plan, end) == Out(code, plan, from) + Images(code, plan, from, end)
    decreases end - from
  {
    if from < end {
      ImagesComeOut(code, plan, from + 1, end);
      Associate(Out(code, plan, from), Image(code, plan, from), Images(code, plan, from + 1, end));
    }
  }

  /** The plan is that of plain text there, and no character is cut in two. */
  ghost predicate PlainOn(code: Text, plan: Plan, start: nat, end: nat)
  {
    && start <= end <= |code| && |plan| == |code|
    && !SplitsPair(code, start) && !SplitsPair(code, end)
    && forall k :: start <= k < end ==> plan[k] == PlainEdit(code, k)
  }

  lemma UntouchedImage(code: Text, plan: Plan, start: nat, end: nat, k: nat)
    requires PlainOn(code, plan, start, end) == true && start <= k < end && !Escapable(code[k])
    ensures Image(code, plan, k) == [code[k]]
  {
    assert plan[k] == PlainEdit(code, k);
  }

  lemma {:induction false} UntouchedImages(code: Text, plan: Plan, start: nat, end: nat, from: nat, to: nat)
    requires PlainOn(code, plan, start, end) == true && start <= from <= to <= end
    requires forall k :: from <= k < to ==> !Escapable(code[k])
    ensures Images(code, plan, from, end)
         == code[from..to] + Images(code, plan, to, end)
    decreases |code| - from
  {
    if from < to {
      UntouchedImages(code, plan, start, end, from + 1, to);
      UntouchedImage(code, plan, start, end, from);
      SliceFront(code, from, to);
      Associate([code[from]], code[from + 1..to], Images(code, plan, to, end));
    } else {
      assert code[from..to] == [];
    }
  }

  lemma PairImages(code: Text, plan: Plan, start: nat, end: nat, p: nat)
    requires PlainOn(code, plan, start, end) == true && start <= p < end && PairAt(code, p)
    ensures p + 2 <= end
    ensures Images(code, plan, p, end)
         == CodePointEscape(CodePoint(code[p], code[p + 1])) + Images(code, plan, p + 2, end)
  {
    assert plan[p] == PlainEdit(code, p) && plan[p + 1] == PlainEdit(code, p + 1);
    assert Image(code, plan, p) == [];
    assert Images(code, plan, p, end) == Images(code, plan, p + 1, end);
  }

  lemma SingleImage(code: Text, plan: Plan, start: nat, end: nat, p: nat)
    requires PlainOn(code, plan, start, end) == true && start <= p < end
    requires Escapable(code[p]) && !PairAt(code, p) && !SplitsPair(code, p)
    ensures Image(code, plan, p)
         == if code[p] in WHITE_SPACE then [SPACE] else UnicodeEscape(code[p])
  {
    assert plan[p] == PlainEdit(code, p);
    WhitespaceIsTabled(code[p]);
  }

  /** Where the text to be rewritten starts, neither it nor what it becomes goes on an escape. */
  lemma {:induction false} BothBreak(code: Text, plan: Plan, start: nat, end: nat, p: nat)
    requires PlainOn(code, plan, start, end) == true && start <= p <= end && !SplitsPair(code, p)
    requires p < end ==> Escapable(code[p])
    ensures Breaks(Images(code, plan, p, end)) && Breaks(Blanked(code[p..end]))
  {
    if p < end {
      assert Blanked(code[p..end])[0] == SPACE || Blanked(code[p..end])[0] == code[p];
      if PairAt(code, p) {
        PairImages(code, plan, start, end, p);
        CodePointEscapeSpells(CodePoint(code[p], code[p + 1]));
        assert CodePointEscape(CodePoint(code[p], code[p + 1]))[..3][0] == BACKSLASH;
      } else {
        SingleImage(code, plan, start, end, p);
        UnicodeEscapeSpells(code[p]);
      }
    }
  }

  /** The rewrite reads, from `p` on, as the original with its white space blanked. */
  ghost predicate ReadsAlike(code: Text, plan: Plan, end: nat, p: nat)
    requires p <= end <= |code| && |plan| == |code|
  {
    Names(Images(code, plan, p, end)) == Names(Blanked(code[p..end]))
  }

  lemma BlankedFront(code: Text, p: nat, q: nat, end: nat)
    requires p <= q <= end <= |code|
    ensures Blanked(code[p..end]) == Blanked(code[p..q]) + Blanked(code[q..end])
  {
  }

  lemma {:induction false} NamesPair(high: Unit, low: Unit, rest: Text)
    requires High(high) && Low(low)
    ensures Names([high, low] + rest) == [high, low] + Names(rest)
  {
    assert [high, low] + rest == [high] + ([low] + rest);
    NamesPlain(high, [low] + rest);
    NamesPlain(low, rest);
    assert [high] + ([low] + Names(rest)) == [high, low] + Names(rest);
  }

  lemma BlankedPair(code: Text, p: nat)
    requires PairAt(code, p)
    ensures Blanked(code[p..p + 2]) == [code[p], code[p + 1]]
  {
  }

  lemma PairStep(code: Text, plan: Plan, start: nat, end: nat, p: nat)
    requires PlainOn(code, plan, start, end) == true && start <= p < end && PairAt(code, p)
    requires p + 2 <= end && ReadsAlike(code, plan, end, p + 2) == true
    ensures ReadsAlike(code, plan, end, p) == true
  {
    PairImages(code, plan, start, end, p);
    PairIsRead(code[p], code[p + 1], Images(code, plan, p + 2, end));
    BlankedFront(code, p, p + 2, end);
    BlankedPair(code, p);
    NamesPair(code[p], code[p + 1], Blanked(code[p + 2..end]));
  }

  lemma SingleStep(code: Text, plan: Plan, start: nat, end: nat, p: nat)
    requires PlainOn(code, plan, start, end) == true && start <= p < end
    requires Escapable(code[p]) && !PairAt(code, p) && !SplitsPair(code, p)
    requires ReadsAlike(code, plan, end, p + 1) == true
    ensures ReadsAlike(code, plan, end, p) == true
  {
    var rest, blanked := Images(code, plan, p + 1, end), Blanked(code[p + 1..end]);
    SingleImage(code, plan, start, end, p);
    BlankedFront(code, p, p + 1, end);
    if code[p] in WHITE_SPACE {
      assert Blanked(code[p..p + 1]) == [SPACE];
      NamesPlain(SPACE, rest);
      NamesPlain(SPACE, blanked);
    } else {
      assert Blanked(code[p..p + 1]) == [code[p]];
      UnicodeEscapeIsRead(code[p], rest);
      NamesPlain(code[p], blanked);
    }
  }

  /** The first offset from `p` on that the rewrite touches. */
  function RunEnd(code: Text, p: nat, end: nat): (q: nat)
    requires p <= end <= |code|
    ensures p <= q <= end && (q < end ==> Escapable(code[q]))
    ensures forall k :: p <= k < q ==> !Escapable(code[k])
    decreases end - p
  {
    if p < end && !Escapable(code[p]) then RunEnd(code, p + 1, end) else p
  }

  lemma BlankedKeeps(t: Text)
    requires forall k :: 0 <= k < |t| ==> !Escapable(t[k])
    ensures Blanked(t) == t
  {
  }

  /** How far the reading moves at the front of an untouched run. */
  function Stride(run: Text): (n: nat)
    requires run != []
    ensures 0 < n <= |run|
  {
    if NameEscape(run).Some? then NameEscape(run).value.length else 1
  }

  function StrideValue(run: Text): Text
    requires run != []
  {
    if NameEscape(run).Some? then NameEscape(run).value.value else [run[0]]
  }

  lemma {:induction false} StrideIsRead(run: Text, rest: Text)
    requires run != [] && Breaks(rest)
    ensures Names(run + rest) == StrideValue(run) + Names(run[Stride(run)..] + rest)
  {
    EscapeBreaks(run, rest);
    assert (run + rest)[Stride(run)..] == run[Stride(run)..] + rest;
  }

  lemma {:induction false} StridesAlike(run: Text, images: Text, blanked: Text)
    requires run != [] && Breaks(images) && Breaks(blanked)
    requires Names(run[Stride(run)..] + images) == Names(run[Stride(run)..] + blanked)
    ensures Names(run + images) == Names(run + blanked)
  {
    StrideIsRead(run, images);
    StrideIsRead(run, blanked);
  }

  /** An untouched run is in front of both texts. */
  lemma {:induction false} RunSplits(code: Text, plan: Plan, start: nat, end: nat, p: nat, q: nat)
    requires PlainOn(code, plan, start, end) == true && start <= p <= q <= end
    requires forall k :: p <= k < q ==> !Escapable(code[k])
    ensures Images(code, plan, p, end) == code[p..q] + Images(code, plan, q, end)
    ensures Blanked(code[p..end]) == code[p..q] + Blanked(code[q..end])
  {
    UntouchedImages(code, plan, start, end, p, q);
    BlankedFront(code, p, q, end);
    BlankedKeeps(code[p..q]);
  }

  lemma {:induction false} TailReadsAlike(code: Text, plan: Plan, start: nat, end: nat, p: nat, q: nat, n: nat)
    requires PlainOn(code, plan, start, end) == true && start <= p && n <= q - p && p <= q <= end
    requires forall k :: p <= k < q ==> !Escapable(code[k])
    requires ReadsAlike(code, plan, end, p + n) == true
    ensures Names(code[p..q][n..] + Images(code, plan, q, end))
         == Names(code[p..q][n..] + Blanked(code[q..end]))
  {
    RunSplits(code, plan, start, end, p + n, q);
    assert code[p..q][n..] == code[p + n..q];
  }

  lemma UntouchedStep(code: Text, plan: Plan, start: nat, end: nat, p: nat, q: nat, n: nat)
    requires PlainOn(code, plan, start, end) == true && start <= p < end && p < q == RunEnd(code, p, end)
    requires n == Stride(code[p..q]) && ReadsAlike(code, plan, end, p + n) == true
    ensures ReadsAlike(code, plan, end, p) == true
  {
    BothBreak(code, plan, start, end, q);
    RunSplits(code, plan, start, end, p, q);
    TailReadsAlike(code, plan, start, end, p, q, n);
    StridesAlike(code[p..q], Images(code, plan, q, end), Blanked(code[q..end]));
  }

  lemma NextStride(code: Text, p: nat, end: nat) returns (q: nat, n: nat)
    requires p < end <= |code| && !Escapable(code[p])
    ensures p < q == RunEnd(code, p, end) && n == Stride(code[p..q]) && p + n <= end && !SplitsPair(code, p + n)
  {
    q := RunEnd(code, p, end);
    n := Stride(code[p..q]);
    assert !Escapable(code[p + n - 1]);
  }

  lemma EndReadsAlike(code: Text, plan: Plan, end: nat)
    requires end <= |code| && |plan| == |code|
    ensures ReadsAlike(code, plan, end, end) == true
  {
    assert code[end..end] == [];
  }

  lemma SplitsNone(code: Text, p: nat)
    requires p < |code|
    ensures if PairAt(code, p) then !SplitsPair(code, p + 2) else !SplitsPair(code, p + 1)
  {
  }

  lemma {:induction false} AllReadAlike(code: Text, plan: Plan, start: nat, end: nat, p: nat)
    requires PlainOn(code, plan, start, end) == true && start <= p <= end && !SplitsPair(code, p)
    ensures ReadsAlike(code, plan, end, p) == true
    decreases end - p
  {
    if p == end {
      EndReadsAlike(code, plan, end);
    } else if !Escapable(code[p]) {
      var q, n := NextStride(code, p, end);
      AllReadAlike(code, plan, start, end, p + n);
      UntouchedStep(code, plan, start, end, p, q, n);
    } else if PairAt(code, p) {
      SplitsNone(code, p);
      PairImages(code, plan, start, end, p);
      AllReadAlike(code, plan, start, end, p + 2);
      PairStep(code, plan, start, end, p);
    } else {
      SplitsNone(code, p);
      AllReadAlike(code, plan, start, end, p + 1);
      SingleStep(code, plan, start, end, p);
    }
  }

  // ----------------------------------------------------------- main results

  /** No literal in between, and no character cut in two. */
  ghost predicate Between(code: Text, spans: seq<Span>, start: nat, end: nat)
  {
    && start <= end <= |code| && ValidSpans(code, spans)
    && !SplitsPair(code, start) && !SplitsPair(code, end)
    && forall k :: start <= k < end ==> SpanAt(spans, k).None?
  }

  /**
   Between literals the result, its identifier escapes read, is the original with its own read and its white space
   above U+007F blanked.
  */
  lemma NamesKeepTheirMeaning(code: Text, spans: seq<Span>, start: nat, end: nat)
    requires Between(code, spans, start, end)
    ensures Names(Part(code, spans, start, end)) == Names(Blanked(code[start..end]))
  {
    AllReadAlike(code, PlanOf(code, spans), start, end, start);
    ImagesComeOut(code, PlanOf(code, spans), start, end);
    PartIs(code, spans, start, end, Images(code, PlanOf(code, spans), start, end));
  }

  /** Where the original holds no escape, that is the original itself, unit for unit. */
  lemma NamesAreReadBack(code: Text, spans: seq<Span>, start: nat, end: nat)
    requires Between(code, spans, start, end) && BACKSLASH !in code[start..end]
    ensures Names(Part(code, spans, start, end)) == Blanked(code[start..end])
  {
    NamesKeepTheirMeaning(code, spans, start, end);
    NamesWithoutEscapes(Blanked(code[start..end]));
  }
}

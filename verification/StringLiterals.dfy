/**
 String and template literal text: how a JavaScript engine reads it from left to right (section 12.9.4 of
 ECMA-262), how the rewrite spells it in ASCII, and why the two agree (ascii-only-output.ts).
*/
module StringLiterals {
  import opened Wrappers
  import opened CodeUnits
  import opened Sequences

  // ----------------------------------------------------- reading a literal

  /** A unit standing for itself, or an escape sequence with the units it contributes to the value. */
  datatype Token = Plain(unit: Unit) | Escape(value: Text)

  datatype Sequence = Sequence(length: nat, value: Text)

  predicate Octal(u: Unit) { 0x30 <= u <= 0x37 }

  function Utf16(codePoint: nat): Text
    requires codePoint <= 0x10ffff
  {
    if codePoint < 0x10000 then [codePoint]
    else [0xd800 + (codePoint - 0x10000) / 0x400, 0xdc00 + (codePoint - 0x10000) % 0x400]
  }

  function HexEnd(s: Text, from: nat): (end: nat)
    requires from <= |s|
    ensures from <= end <= |s| && AllHex(s[from..end])
    ensures end < |s| ==> !IsHexDigit(s[end])
    decreases |s| - from
  {
    if from < |s| && IsHexDigit(s[from]) then HexEnd(s, from + 1) else from
  }

  function BracedSequence(s: Text): (r: Option<Sequence>)
    requires |s| > 2
    ensures r.Some? ==> 2 <= r.value.length <= |s|
  {
    var end := HexEnd(s, 3);
    if 3 < end < |s| && s[end] == CLOSE_BRACE && HexValue(s[3..end]) <= 0x10ffff
    then Some(Sequence(end + 1, Utf16(HexValue(s[3..end])))) else None
  }

  function OctalSequence(s: Text): (r: Sequence)
    requires |s| > 1 && Octal(s[1])
    ensures 2 <= r.length <= |s|
  {
    var first := s[1] - 0x30;
    if !(|s| > 2 && Octal(s[2])) then Sequence(2, [first])
    else if first <= 3 && |s| > 3 && Octal(s[3])
    then Sequence(4, [64 * first + 8 * (s[2] - 0x30) + (s[3] - 0x30)])
    else Sequence(3, [8 * first + (s[2] - 0x30)])
  }

  /** The units with an escape of their own: `\b`, `\t`, `\n`, `\v`, `\f`, `\r`. */
  function SingleEscape(c: Unit): Option<Unit>
  {
    if c == 0x62 then Some(8) else if c == 0x74 then Some(9) else if c == 0x6e then Some(10)
    else if c == 0x76 then Some(11) else if c == 0x66 then Some(12) else if c == 0x72 then Some(13) else None
  }

  /** The escape sequence at the front of `s`, a backslash; `None` where the grammar has none. */
  function SequenceAt(s: Text): (r: Option<Sequence>)
    requires s != [] && s[0] == BACKSLASH
    ensures r.Some? ==> 2 <= r.value.length <= |s|
  {
    if |s| < 2 then None
    else
      var c := s[1];
      if c == CARRIAGE_RETURN then Some(Sequence(if |s| > 2 && s[2] == LINE_FEED then 3 else 2, []))
      else if Terminator(c) then Some(Sequence(2, []))
      else if c == 0x75 then
        if |s| > 2 && s[2] == OPEN_BRACE then BracedSequence(s)
        else if |s| >= 6 && AllHex(s[2..6]) then Some(Sequence(6, [HexUnit(s[2..6])]))
        else None
      else if c == 0x78 then
        if |s| >= 4 && AllHex(s[2..4]) then Some(Sequence(4, [HexUnit(s[2..4])])) else None
      else if Octal(c) then Some(OctalSequence(s))
      else if SingleEscape(c).Some? then Some(Sequence(2, [SingleEscape(c).value]))
      else Some(Sequence(2, [c]))
  }

  function Before(token: Token, rest: Option<seq<Token>>): Option<seq<Token>>
  {
    if rest.None? then None else Some([token] + rest.value)
  }

  /** The tokens of a literal's text, or `None` when an escape is malformed. */
  function Lex(s: Text): Option<seq<Token>>
    decreases |s|
  {
    if s == [] then Some([])
    else if s[0] != BACKSLASH then Before(Plain(s[0]), Lex(s[1..]))
    else
      match SequenceAt(s)
      case None => None
      case Some(sequence) => Before(Escape(sequence.value), Lex(s[sequence.length..]))
  }

  function Value(tokens: seq<Token>): Text
  {
    if tokens == [] then []
    else (match tokens[0] case Plain(unit) => [unit] case Escape(value) => value) + Value(tokens[1..])
  }

  // --------------------------------------------------- rewriting a literal

  /** How many backslashes stand right before `offset`, back to the literal's start. */
  function BackslashRun(code: Text, start: nat, offset: nat): (r: nat)
    requires offset <= |code|
    ensures r > 0 ==> offset > start && code[offset - 1] == BACKSLASH
  {
    if offset > start && code[offset - 1] == BACKSLASH then 1 + BackslashRun(code, start, offset - 1) else 0
  }

  predicate Escaped(code: Text, start: nat, offset: nat)
    requires offset <= |code|
  {
    BackslashRun(code, start, offset) % 2 == 1
  }

  method EscapedByBackslash(code: Text, offset: nat, literalStart: nat) returns (r: bool)
    requires offset <= |code|
    ensures r == Escaped(code, literalStart, offset)
  {
    var backslashes := 0;
    var index := offset - 1;
    while index >= literalStart && code[index] == BACKSLASH
      invariant -1 <= index < offset
      invariant BackslashRun(code, literalStart, offset) == backslashes + BackslashRun(code, literalStart, index + 1)
    {
      backslashes := backslashes + 1;
      index := index - 1;
    }
    r := backslashes % 2 == 1;
  }

  /** The backslash at `k` escapes a unit that is rewritten, so it is folded into that unit's escape. */
  predicate Folded(code: Text, start: nat, end: nat, k: nat)
    requires k < end <= |code|
  {
    code[k] == BACKSLASH && k + 1 < end && Escapable(code[k + 1]) && Escaped(code, start, k + 1)
  }

  /** What unit `k` of the literal `code[start..end]` contributes to the rewritten text. */
  function LiteralImage(code: Text, start: nat, end: nat, k: nat): Text
    requires k < end <= |code|
  {
    if Escapable(code[k]) then UnicodeEscape(code[k])
    else if Folded(code, start, end, k) then []
    else [code[k]]
  }

  function LiteralFrom(code: Text, start: nat, end: nat, from: nat): Text
    requires from <= end <= |code|
    decreases end - from
  {
    if from == end then [] else LiteralImage(code, start, end, from) + LiteralFrom(code, start, end, from + 1)
  }

  // ------------------------------------------------- the value is preserved

  /** A unit that is rewritten becomes an escape with the same value; every other token is untouched. */
  function Normal(token: Token): Token
  {
    match token
    case Plain(unit) => if Escapable(unit) then Escape([unit]) else token
    case Escape(_) => token
  }

  function NormalAll(tokens: seq<Token>): seq<Token>
  {
    if tokens == [] then [] else [Normal(tokens[0])] + NormalAll(tokens[1..])
  }

  lemma {:induction false} NormalKeepsValue(tokens: seq<Token>)
    ensures Value(NormalAll(tokens)) == Value(tokens)
  {
    if tokens != [] { NormalKeepsValue(tokens[1..]); }
  }

  function NormalLex(lexed: Option<seq<Token>>): Option<seq<Token>>
  {
    if lexed.None? then None else Some(NormalAll(lexed.value))
  }

  lemma NormalBefore(token: Token, rest: Option<seq<Token>>)
    ensures NormalLex(Before(token, rest)) == Before(Normal(token), NormalLex(rest))
  {
    if rest.Some? { assert ([token] + rest.value)[1..] == rest.value; }
  }

  lemma {:induction false} LexUnicodeEscape(u: Unit, rest: Text)
    ensures Lex(UnicodeEscape(u) + rest) == Before(Escape([u]), Lex(rest))
  {
    UnicodeEscapeSpells(u);
    var s := UnicodeEscape(u) + rest;
    assert s[2..6] == UnicodeEscape(u)[2..];
    assert IsHexDigit(UnicodeEscape(u)[2..][0]);
    assert s[6..] == rest;
  }

  /** All an escape can see past its own end: an octal digit, or the line feed of a CRLF. */
  function Ahead(s: Text): Option<Unit>
  {
    if s != [] && (Octal(s[0]) || s[0] == LINE_FEED) then Some(s[0]) else None
  }

  lemma {:induction false} HexEndAt(s: Text, from: nat, end: nat)
    requires from <= end < |s| && AllHex(s[from..end]) && !IsHexDigit(s[end])
    ensures HexEnd(s, from) == end
    decreases end - from
  {
    if from < end {
      assert s[from] == s[from..end][0];
      HexEndAt(s, from + 1, end);
    }
  }

  lemma BracedIsLocal(s: Text, t: Text)
    requires |s| > 2 && |t| > 2 && BracedSequence(s).Some?
    requires BracedSequence(s).value.length <= |t|
    requires s[..BracedSequence(s).value.length] == t[..BracedSequence(s).value.length]
    ensures BracedSequence(t) == BracedSequence(s)
  {
    var end := HexEnd(s, 3);
    var n := end + 1;
    assert forall i :: 0 <= i < n ==> s[i] == s[..n][i] == t[..n][i] == t[i];
    assert t[3..end] == s[3..end];
    HexEndAt(t, 3, end);
  }

  /** The sequence at the front depends on its own units and on `Ahead` of it, nothing else. */
  lemma SequenceIsLocal(s: Text, t: Text, n: nat)
    requires s != [] && s[0] == BACKSLASH && SequenceAt(s).Some? && n == SequenceAt(s).value.length
    requires n <= |t| && s[..n] == t[..n] && Ahead(s[n..]) == Ahead(t[n..])
    ensures t[0] == BACKSLASH && SequenceAt(t) == SequenceAt(s)
  {
    assert forall i :: 0 <= i < n ==> s[i] == s[..n][i] == t[..n][i] == t[i];
    assert |s| > n ==> s[n..][0] == s[n];
    assert |t| > n ==> t[n..][0] == t[n];
    var c := s[1];
    if c == 0x75 && |s| > 2 && s[2] == OPEN_BRACE {
      BracedIsLocal(s, t);
    } else if c == 0x75 && !Terminator(c) {
      assert t[2..6] == s[2..6];
    } else if c == 0x78 {
      assert t[2..4] == s[2..4];
    }
  }

  /** Past the first two units, an escape sequence holds no backslash and nothing above U+007F. */
  lemma SequenceIsAscii(s: Text)
    requires s != [] && s[0] == BACKSLASH && SequenceAt(s).Some?
    ensures forall i :: 2 <= i < SequenceAt(s).value.length ==> s[i] != BACKSLASH && !Escapable(s[i])
    ensures SequenceAt(s).value.length > 2 ==> s[1] != BACKSLASH
    ensures Escapable(s[1]) || s[1] == BACKSLASH ==> SequenceAt(s).value == Sequence(2, [s[1]])
  {
    if |s| > 2 && s[1] == 0x75 && s[2] == OPEN_BRACE {
      var end := HexEnd(s, 3);
      forall i | 3 <= i < end ensures IsHexDigit(s[i]) { assert s[i] == s[3..end][i - 3]; }
    } else if s[1] == 0x75 {
      forall i | 2 <= i < 6 ensures IsHexDigit(s[i]) { assert s[i] == s[2..6][i - 2]; }
    } else if s[1] == 0x78 {
      forall i | 2 <= i < 4 ensures IsHexDigit(s[i]) { assert s[i] == s[2..4][i - 2]; }
    }
  }

  lemma SliceConcat(code: Text, p: nat, q: nat, end: nat)
    requires p <= q <= end <= |code|
    ensures code[p..end] == code[p..q] + code[q..end]
  {
  }

  lemma {:induction false} Untouched(code: Text, start: nat, end: nat, from: nat, to: nat)
    requires from <= to <= end <= |code|
    requires forall k :: from <= k < to ==> LiteralImage(code, start, end, k) == [code[k]]
    ensures LiteralFrom(code, start, end, from) == code[from..to] + LiteralFrom(code, start, end, to)
    decreases |code| - from
  {
    if from < to {
      Untouched(code, start, end, from + 1, to);
      SliceFront(code, from, to);
      Associate([code[from]], code[from + 1..to], LiteralFrom(code, start, end, to));
    } else {
      assert code[from..to] == [];
    }
  }

  lemma NothingAheadOfEscape(u: Unit, rest: Text)
    ensures Ahead(UnicodeEscape(u) + rest) == None
  {
    UnicodeEscapeSpells(u);
  }

  lemma AheadIsFirst(code: Text, from: nat, end: nat)
    requires from < end <= |code|
    ensures Ahead(code[from..end]) == Ahead([code[from]])
  {
  }

  /** What an escape sees ahead of it is the same before and after the rewrite. */
  lemma {:induction false} SameAhead(code: Text, start: nat, end: nat, from: nat)
    requires from <= end <= |code|
    ensures Ahead(LiteralFrom(code, start, end, from)) == Ahead(code[from..end])
  {
    if from < end {
      AheadIsFirst(code, from, end);
      var rest := LiteralFrom(code, start, end, from + 1);
      if Escapable(code[from]) {
        NothingAheadOfEscape(code[from], rest);
      } else if Folded(code, start, end, from) {
        assert LiteralFrom(code, start, end, from) == [] + rest == rest;
        NothingAheadOfEscape(code[from + 1], LiteralFrom(code, start, end, from + 2));
      }
    }
  }

  /** An escape sequence that starts where the run of backslashes is even, and that no rewrite touches. */
  lemma SequenceUntouched(code: Text, start: nat, end: nat, p: nat, n: nat)
    requires start <= p < end <= |code| && code[p] == BACKSLASH
    requires BackslashRun(code, start, p) % 2 == 0
    requires SequenceAt(code[p..end]).Some? && n == SequenceAt(code[p..end]).value.length
    requires !Escapable(code[p + 1])
    ensures forall k :: p <= k < p + n ==> LiteralImage(code, start, end, k) == [code[k]]
    ensures BackslashRun(code, start, p + n) % 2 == 0
  {
    var s := code[p..end];
    SequenceIsAscii(s);
    assert s[1] == code[p + 1];
    assert BackslashRun(code, start, p + 1) == 1 + BackslashRun(code, start, p);
    forall k | p <= k < p + n ensures LiteralImage(code, start, end, k) == [code[k]] {
      if k >= p + 2 {
        assert s[k - p] == code[k];
      } else if k == p + 1 {
        assert code[k] == BACKSLASH ==> BackslashRun(code, start, p + 2) == 2 + BackslashRun(code, start, p);
      }
    }
    if n > 2 { assert s[n - 1] == code[p + n - 1]; }
  }

  /** The backslash before a rewritten unit is folded into its escape, exactly when the lexer says it escapes it. */
  lemma FoldedText(code: Text, start: nat, end: nat, p: nat)
    requires start <= p && p + 1 < end <= |code| && code[p] == BACKSLASH && Escapable(code[p + 1])
    requires BackslashRun(code, start, p) % 2 == 0
    ensures LiteralFrom(code, start, end, p) == UnicodeEscape(code[p + 1]) + LiteralFrom(code, start, end, p + 2)
    ensures BackslashRun(code, start, p + 2) == 0
  {
    assert BackslashRun(code, start, p + 1) == 1 + BackslashRun(code, start, p);
    assert Folded(code, start, end, p);
    var rest := LiteralFrom(code, start, end, p + 1);
    assert LiteralFrom(code, start, end, p) == [] + rest;
    assert rest == LiteralImage(code, start, end, p + 1) + LiteralFrom(code, start, end, p + 2);
  }

  lemma {:induction false} LexFolded(s: Text)
    requires |s| > 1 && s[0] == BACKSLASH && Escapable(s[1])
    ensures Lex(s) == Before(Escape([s[1]]), Lex(s[2..]))
  {
  }

  lemma {:induction false} LexPlain(u: Unit, rest: Text)
    requires u != BACKSLASH
    ensures Lex([u] + rest) == Before(Plain(u), Lex(rest))
  {
    assert ([u] + rest)[1..] == rest;
  }

  lemma {:induction false} LexSequence(s: Text)
    requires s != [] && s[0] == BACKSLASH && SequenceAt(s).Some?
    ensures Lex(s) == Before(Escape(SequenceAt(s).value.value), Lex(s[SequenceAt(s).value.length..]))
  {
  }

  lemma {:induction false} LexLocal(sequence: Text, a: Text, b: Text, value: Text)
    requires sequence != [] && sequence[0] == BACKSLASH
    requires SequenceAt(sequence + a) == Some(Sequence(|sequence|, value)) && Ahead(a) == Ahead(b)
    ensures Lex(sequence + b) == Before(Escape(value), Lex(b))
  {
    var s, t, n := sequence + a, sequence + b, |sequence|;
    assert s[..n] == sequence == t[..n] && s[n..] == a && t[n..] == b;
    SequenceIsLocal(s, t, n);
    LexSequence(t);
  }

  /** From `p` on, the rewrite lexes token for token like the literal. */
  ghost predicate Agrees(code: Text, start: nat, end: nat, p: nat)
    requires p <= end <= |code|
  {
    LexesAlike(Lex(code[p..end]), Lex(LiteralFrom(code, start, end, p)))
  }

  ghost predicate LexesAlike(before: Option<seq<Token>>, after: Option<seq<Token>>)
  {
    before.Some? ==> after == NormalLex(before)
  }

  lemma AlikeStep(token: Token, before: Option<seq<Token>>, after: Option<seq<Token>>)
    requires LexesAlike(before, after)
    ensures LexesAlike(Before(token, before), Before(Normal(token), after))
  {
    NormalBefore(token, before);
  }

  lemma SliceStep(code: Text, p: nat, q: nat, end: nat)
    requires p <= q <= end <= |code|
    ensures code[p..end][q - p..] == code[q..end] && code[p..end][..q - p] == code[p..q]
  {
  }

  lemma PlainStep(code: Text, start: nat, end: nat, p: nat)
    requires p < end <= |code| && code[p] != BACKSLASH && Agrees(code, start, end, p + 1)
    ensures Agrees(code, start, end, p)
  {
    SliceStep(code, p, p + 1, end);
    var rest := LiteralFrom(code, start, end, p + 1);
    AlikeStep(Plain(code[p]), Lex(code[p + 1..end]), Lex(rest));
    if Escapable(code[p]) { LexUnicodeEscape(code[p], rest); } else { LexPlain(code[p], rest); }
  }

  lemma FoldedLexes(code: Text, start: nat, end: nat, p: nat)
    requires start <= p && p + 1 < end <= |code| && code[p] == BACKSLASH && Escapable(code[p + 1])
    requires BackslashRun(code, start, p) % 2 == 0
    ensures Lex(LiteralFrom(code, start, end, p))
         == Before(Escape([code[p + 1]]), Lex(LiteralFrom(code, start, end, p + 2)))
  {
    FoldedText(code, start, end, p);
    LexUnicodeEscape(code[p + 1], LiteralFrom(code, start, end, p + 2));
  }

  lemma FoldedSource(code: Text, p: nat, end: nat)
    requires p + 1 < end <= |code| && code[p] == BACKSLASH && Escapable(code[p + 1])
    ensures Lex(code[p..end]) == Before(Escape([code[p + 1]]), Lex(code[p + 2..end]))
  {
    SliceStep(code, p, p + 2, end);
    LexFolded(code[p..end]);
  }

  lemma FoldedStep(code: Text, start: nat, end: nat, p: nat)
    requires start <= p && p + 1 < end <= |code| && code[p] == BACKSLASH && Escapable(code[p + 1])
    requires BackslashRun(code, start, p) % 2 == 0 && Agrees(code, start, end, p + 2)
    ensures Agrees(code, start, end, p)
  {
    FoldedLexes(code, start, end, p);
    FoldedSource(code, p, end);
    AlikeStep(Escape([code[p + 1]]), Lex(code[p + 2..end]), Lex(LiteralFrom(code, start, end, p + 2)));
  }

  lemma SequenceLexes(code: Text, start: nat, end: nat, p: nat, q: nat, value: Text)
    requires start <= p < p + 1 < q <= end <= |code| && code[p] == BACKSLASH && !Escapable(code[p + 1])
    requires BackslashRun(code, start, p) % 2 == 0
    requires SequenceAt(code[p..end]) == Some(Sequence(q - p, value))
    ensures Lex(LiteralFrom(code, start, end, p)) == Before(Escape(value), Lex(LiteralFrom(code, start, end, q)))
  {
    SequenceUntouched(code, start, end, p, q - p);
    Untouched(code, start, end, p, q);
    SameAhead(code, start, end, q);
    SliceConcat(code, p, q, end);
    LexLocal(code[p..q], code[q..end], LiteralFrom(code, start, end, q), value);
  }

  lemma {:induction false} SequenceStep(code: Text, start: nat, end: nat, p: nat, q: nat, value: Text)
    requires start <= p < p + 1 < q <= end <= |code| && code[p] == BACKSLASH && !Escapable(code[p + 1])
    requires BackslashRun(code, start, p) % 2 == 0
    requires SequenceAt(code[p..end]) == Some(Sequence(q - p, value))
    requires Agrees(code, start, end, q)
    ensures Agrees(code, start, end, p)
  {
    SliceStep(code, p, q, end);
    SequenceLexes(code, start, end, p, q, value);
    LexSequence(code[p..end]);
    AlikeStep(Escape(value), Lex(code[q..end]), Lex(LiteralFrom(code, start, end, q)));
  }

  lemma {:induction false} TailLexes(s: Text)
    requires s != [] && Lex(s).Some?
    ensures if s[0] != BACKSLASH then Lex(s[1..]).Some?
      else SequenceAt(s).Some? && Lex(s[SequenceAt(s).value.length..]).Some?
  {
  }

  lemma NextSequence(code: Text, p: nat, end: nat) returns (q: nat, value: Text)
    requires p < end <= |code| && code[p] == BACKSLASH && Lex(code[p..end]).Some?
    ensures p + 1 < q <= end && SequenceAt(code[p..end]) == Some(Sequence(q - p, value))
  {
    TailLexes(code[p..end]);
    var sequence := SequenceAt(code[p..end]).value;
    q, value := p + sequence.length, sequence.value;
  }

  lemma SequenceEndsEven(code: Text, start: nat, end: nat, p: nat, q: nat, value: Text)
    requires start <= p < p + 1 < q <= end <= |code| && code[p] == BACKSLASH && !Escapable(code[p + 1])
    requires BackslashRun(code, start, p) % 2 == 0
    requires SequenceAt(code[p..end]) == Some(Sequence(q - p, value))
    ensures BackslashRun(code, start, q) % 2 == 0
  {
    SequenceUntouched(code, start, end, p, q - p);
  }

  lemma EndAgrees(code: Text, start: nat, end: nat)
    requires end <= |code|
    ensures Agrees(code, start, end, end)
  {
    assert code[end..end] == [];
  }

  /**
   The rewrite of a literal lexes token for token like the literal itself, from any point where the
   left-to-right lexer stands between two tokens: there the right-to-left backslash count is even.
  */
  lemma {:induction false} LexRewritten(code: Text, start: nat, end: nat, p: nat)
    requires start <= p <= end <= |code|
    requires BackslashRun(code, start, p) % 2 == 0
    ensures Agrees(code, start, end, p)
    decreases end - p, 2
  {
    if p == end {
      EndAgrees(code, start, end);
    } else if code[p] != BACKSLASH {
      assert BackslashRun(code, start, p + 1) == 0;
      LexRewritten(code, start, end, p + 1);
      PlainStep(code, start, end, p);
    } else {
      LexRewrittenEscape(code, start, end, p);
    }
  }

  lemma {:induction false} LexRewrittenEscape(code: Text, start: nat, end: nat, p: nat)
    requires start <= p < end <= |code| && code[p] == BACKSLASH
    requires BackslashRun(code, start, p) % 2 == 0
    ensures Agrees(code, start, end, p)
    decreases end - p, 1
  {
    if Lex(code[p..end]).Some? {
      var q, value := NextSequence(code, p, end);
      LexRewrittenSequence(code, start, end, p, q, value);
    }
  }

  lemma {:induction false} LexRewrittenSequence(code: Text, start: nat, end: nat, p: nat, q: nat, value: Text)
    requires start <= p < p + 1 < q <= end <= |code| && code[p] == BACKSLASH
    requires BackslashRun(code, start, p) % 2 == 0
    requires SequenceAt(code[p..end]) == Some(Sequence(q - p, value))
    ensures Agrees(code, start, end, p)
    decreases end - p, 0
  {
    if Escapable(code[p + 1]) {
      FoldedText(code, start, end, p);
      LexRewritten(code, start, end, p + 2);
      FoldedStep(code, start, end, p);
    } else {
      SequenceEndsEven(code, start, end, p, q, value);
      LexRewritten(code, start, end, q);
      SequenceStep(code, start, end, p, q, value);
    }
  }

  /**
   Rewriting a well-formed literal changes no token but to spell a unit above U+007F as its escape, so
   its quotes and substitutions stay where they were and its value is the same, unit for unit.
  */
  lemma {:induction false} RewritePreservesLiteral(code: Text, start: nat, end: nat)
    requires start <= end <= |code| && Lex(code[start..end]).Some?
    ensures var before := Lex(code[start..end]).value;
      var after := Lex(LiteralFrom(code, start, end, start));
      after == Some(NormalAll(before)) && Value(after.value) == Value(before)
  {
    LexRewritten(code, start, end, start);
    NormalKeepsValue(Lex(code[start..end]).value);
  }

  // -------------------------------------------------- ASCII string literals

  /** What one unit becomes inside the double quotes. */
  function QuotedUnit(u: Unit): Text
  {
    if u == BACKSLASH || u == DOUBLE_QUOTE then [BACKSLASH, u]
    else if !PrintableAscii(u) then UnicodeEscape(u)
    else [u]
  }

  function Quoted(text: Text): Text
  {
    FlatMap(QuotedUnit, text)
  }

  method AsciiStringLiteral(text: Text) returns (literal: Text)
    ensures literal == [DOUBLE_QUOTE] + Quoted(text) + [DOUBLE_QUOTE]
  {
    var body: Text := [];
    for index := 0 to |text|
      invariant body == Quoted(text[..index])
    {
      var unit := text[index];
      if unit == BACKSLASH || unit == DOUBLE_QUOTE {
        body := body + [BACKSLASH, text[index]];
      } else if unit < 0x20 || unit > 0x7e {
        body := body + UnicodeEscape(unit);
      } else {
        body := body + [text[index]];
      }
      assert text[..index + 1][..index] == text[..index];
    }
    assert text[..|text|] == text;
    literal := [DOUBLE_QUOTE] + body + [DOUBLE_QUOTE];
  }

  /** A quoted unit lexes to one token of that value, which is never a bare quote. */
  function QuotedToken(u: Unit): Token
  {
    if u == BACKSLASH || u == DOUBLE_QUOTE || !PrintableAscii(u) then Escape([u]) else Plain(u)
  }

  function QuotedTokens(text: Text): seq<Token>
  {
    if text == [] then [] else [QuotedToken(text[0])] + QuotedTokens(text[1..])
  }

  lemma {:induction false} LexQuotedUnit(u: Unit, rest: Text)
    ensures Lex(QuotedUnit(u) + rest) == Before(QuotedToken(u), Lex(rest))
  {
    if u == BACKSLASH || u == DOUBLE_QUOTE {
      var s := QuotedUnit(u) + rest;
      assert s[1] == u && s[2..] == rest;
      LexSequence(s);
    } else if !PrintableAscii(u) {
      LexUnicodeEscape(u, rest);
    } else {
      LexPlain(u, rest);
    }
  }

  lemma {:induction false} QuotedIsPrintable(text: Text)
    ensures forall i :: 0 <= i < |Quoted(text)| ==> PrintableAscii(Quoted(text)[i])
  {
    if text != [] {
      var front, last := text[..|text| - 1], text[|text| - 1];
      QuotedIsPrintable(front);
      UnicodeEscapeSpells(last);
      assert Quoted(text) == Quoted(front) + QuotedUnit(last);
    }
  }

  lemma {:induction false} QuotedTokensSpell(text: Text)
    ensures Value(QuotedTokens(text)) == text
    ensures Plain(DOUBLE_QUOTE) !in QuotedTokens(text)
  {
    if text != [] {
      var tail := QuotedTokens(text[1..]);
      QuotedTokensSpell(text[1..]);
      assert ([QuotedToken(text[0])] + tail)[1..] == tail;
      assert text == [text[0]] + text[1..];
    }
  }

  lemma {:induction false} QuotedLexes(text: Text)
    ensures Lex(Quoted(text)) == Some(QuotedTokens(text))
  {
    if text != [] {
      QuotedLexes(text[1..]);
      LexQuotedUnit(text[0], Quoted(text[1..]));
      FlatMapFront(QuotedUnit, text);
    }
  }

  /** The quoted text is printable ASCII, closes only at its own closing quote, and evaluates to `text`. */
  lemma {:induction false} QuotedEvaluates(text: Text)
    ensures Lex(Quoted(text)) == Some(QuotedTokens(text))
    ensures Value(QuotedTokens(text)) == text
    ensures Plain(DOUBLE_QUOTE) !in QuotedTokens(text)
    ensures forall i :: 0 <= i < |Quoted(text)| ==> PrintableAscii(Quoted(text)[i])
  {
    QuotedLexes(text);
    QuotedTokensSpell(text);
    QuotedIsPrintable(text);
  }

  // ---------------------------------------------------- regular expressions

  function LastSlash(literal: Text): (close: nat)
    requires SLASH in literal
    ensures close < |literal| && literal[close] == SLASH && SLASH !in literal[close + 1..]
  {
    var n := |literal| - 1;
    if literal[n] == SLASH then n else LastSlash(literal[..n])
  }

  function Quote(text: Text): Text
  {
    [DOUBLE_QUOTE] + Quoted(text) + [DOUBLE_QUOTE]
  }

  predicate RegExpLiteral(literal: Text)
  {
    |literal| >= 2 && literal[0] == SLASH && SLASH in literal[1..]
  }

  /** The construction with the literal's pattern text and flags. */
  function RegExpConstruction(literal: Text): Text
    requires RegExpLiteral(literal)
  {
    var close := 1 + LastSlash(literal[1..]);
    Construction(literal[1..close], literal[close + 1..])
  }

  function Construction(pattern: Text, flags: Text): Text
  {
    if flags == [] then Ascii("(new RegExp(") + Quote(pattern) + Ascii("))")
    else Ascii("(new RegExp(") + Quote(pattern) + Ascii(",") + Quote(flags) + Ascii("))")
  }

  lemma {:induction false} LastSlashIs(t: Text, k: nat)
    requires k < |t| && t[k] == SLASH && SLASH !in t[k + 1..]
    ensures SLASH in t && LastSlash(t) == k
  {
    var n := |t| - 1;
    if k < n {
      assert t[k + 1..][n - k - 1] == t[n];
      assert t[..n][k + 1..] == t[k + 1..][..n - k - 1];
      LastSlashIs(t[..n], k);
    }
  }

  lemma LiteralParts(pattern: Text, flags: Text)
    requires SLASH !in flags
    ensures var literal := [SLASH] + pattern + [SLASH] + flags;
      && RegExpLiteral(literal) && 1 + LastSlash(literal[1..]) == |pattern| + 1
      && literal[1..|pattern| + 1] == pattern && literal[|pattern| + 2..] == flags
  {
    var literal := [SLASH] + pattern + [SLASH] + flags;
    var tail := literal[1..];
    assert tail == pattern + [SLASH] + flags;
    assert tail[|pattern| + 1..] == flags;
    LastSlashIs(tail, |pattern|);
  }

  /** Between double quotes, `body` is a string literal of value `text`: no token of it is a bare quote. */
  ghost predicate Spells(body: Text, text: Text)
  {
    && Lex(body).Some? && Value(Lex(body).value) == text && Plain(DOUBLE_QUOTE) !in Lex(body).value
    && forall i :: 0 <= i < |body| ==> 0x20 <= body[i] <= 0x7e
  }

  /** The call with the first body as its first argument and, if there are flags, the second as its second. */
  function CallText(first: Text, flagged: bool, second: Text): Text
  {
    Ascii("(new RegExp(\"") + first + Ascii("\"")
    + (if flagged then Ascii(",\"") + second + Ascii("\"") else [])
    + Ascii("))")
  }

  /** The text calls `RegExp` with a string literal of the pattern and, if there are any, one of the flags. */
  ghost predicate Constructs(text: Text, pattern: Text, flags: Text)
  {
    exists first: Text, second: Text ::
      Spells(first, pattern) && Spells(second, flags) && text == CallText(first, flags != [], second)
  }

  lemma QuoteMarks()
    ensures Ascii("(new RegExp(\"") == Ascii("(new RegExp(") + [DOUBLE_QUOTE]
    ensures Ascii(",\"") == Ascii(",") + [DOUBLE_QUOTE] && Ascii("\"") == [DOUBLE_QUOTE]
  {
  }

  lemma OneArgument(open: Text, quote: Text, p: Text, close: Text)
    ensures open + (quote + p + quote) + close == open + quote + p + quote + [] + close
  {
    assert open + (quote + p + quote) == open + quote + p + quote;
  }

  lemma TwoArguments(open: Text, quote: Text, p: Text, comma: Text, f: Text, close: Text)
    ensures open + (quote + p + quote) + comma + (quote + f + quote) + close
         == open + quote + p + quote + (comma + quote + f + quote) + close
  {
    var head := open + quote + p + quote;
    assert open + (quote + p + quote) == head;
    assert head + comma + (quote + f + quote) == head + (comma + quote + f + quote);
  }

  lemma ConstructionIsCall(pattern: Text, flags: Text)
    ensures Construction(pattern, flags) == CallText(Quoted(pattern), flags != [], Quoted(flags))
  {
    QuoteMarks();
    var open, quote, close: Text := Ascii("(new RegExp("), [DOUBLE_QUOTE], Ascii("))");
    if flags == [] {
      OneArgument(open, quote, Quoted(pattern), close);
    } else {
      TwoArguments(open, quote, Quoted(pattern), Ascii(","), Quoted(flags), close);
    }
  }

  /** Whatever pattern and flags a literal is made of, those are what its construction passes to `RegExp`, in order. */
  lemma ConstructionEvaluates(pattern: Text, flags: Text)
    requires SLASH !in flags
    ensures RegExpLiteral([SLASH] + pattern + [SLASH] + flags)
    ensures Constructs(RegExpConstruction([SLASH] + pattern + [SLASH] + flags), pattern, flags)
  {
    LiteralParts(pattern, flags);
    ConstructionIsCall(pattern, flags);
    QuotedEvaluates(pattern);
    QuotedEvaluates(flags);
    assert Spells(Quoted(pattern), pattern) && Spells(Quoted(flags), flags);
  }

  /** A literal is its pattern between slashes, and its flags. */
  lemma LiteralSplits(literal: Text) returns (pattern: Text, flags: Text)
    requires RegExpLiteral(literal)
    ensures literal == [SLASH] + pattern + [SLASH] + flags && SLASH !in flags
  {
    var close := 1 + LastSlash(literal[1..]);
    pattern, flags := literal[1..close], literal[close + 1..];
    assert literal[close + 1..] == literal[1..][close..];
  }

  lemma AsciiIsPrintable(s: string)
    requires forall i :: 0 <= i < |s| ==> 0x20 as char <= s[i] <= 0x7e as char
    ensures AllPrintable(Ascii(s))
  {
  }

  predicate AllPrintable(t: Text)
  {
    forall i :: 0 <= i < |t| ==> 0x20 <= t[i] <= 0x7e
  }

  lemma QuoteIsPrintable(text: Text)
    ensures AllPrintable(Quote(text))
  {
    QuotedEvaluates(text);
  }

  lemma ConstructionIsAscii(pattern: Text, flags: Text)
    ensures Construction(pattern, flags) != [] && AllPrintable(Construction(pattern, flags))
  {
    QuoteIsPrintable(pattern);
    QuoteIsPrintable(flags);
    AsciiIsPrintable("(new RegExp(");
    AsciiIsPrintable(",");
    AsciiIsPrintable("))");
  }
}

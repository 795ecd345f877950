/**
 The phone tier copier (phone-tier-css.ts): every hand-written phone tier of a stylesheet is repeated, right
 after itself, under the installed app's class.
*/
module PhoneTiers {
  import opened CodeUnits
  import opened Wrappers

  /** A stretch of the stylesheet as it was, or an inserted copy of a tier's body. */
  datatype Piece = Kept(text: Text) | Inserted(body: Text)

  // The two spellings of a tier's query that the anchored expression accepts.
  const NARROW: Text := Ascii("@media (max-width: 767px) {")
  const COARSE: Text := Ascii("@media (pointer: coarse) {")

  const MARKER: Text := [LINE_FEED] + Ascii(".traycer-phone-layout-only {")

  predicate Space(u: Unit)
  {
    0x09 <= u <= 0x0d || u == SPACE || Whitespace(u)
  }

  /** Where a line starts, for an expression anchored with the multiline flag. */
  predicate LineStart(text: Text, i: nat)
    requires i <= |text|
  {
    i == 0 || Terminator(text[i - 1])
  }

  function AfterSpace(text: Text, i: nat): (j: nat)
    requires i <= |text|
    ensures i <= j <= |text|
    decreases |text| - i
  {
    if i < |text| && Space(text[i]) then AfterSpace(text, i + 1) else i
  }

  /** `word` is what the text reads from `i`. */
  predicate Reads(text: Text, i: nat, word: Text)
  {
    i + |word| <= |text| && ReadsUpTo(text, i, word, |word|)
  }

  predicate ReadsUpTo(text: Text, i: nat, word: Text, n: nat)
    requires n <= |word| && i + n <= |text|
  {
    n == 0 || (text[i + n - 1] == word[n - 1] && ReadsUpTo(text, i, word, n - 1))
  }

  /** The end of the tier head that a match at `i` covers, its opening brace included. */
  function HeadAt(text: Text, i: nat): (end: Option<nat>)
    requires i <= |text|
    ensures end.Some? ==> i < end.value <= |text|
  {
    var query := AfterSpace(text, i);
    if !LineStart(text, i) then None
    else if Reads(text, query, NARROW) then Some(query + |NARROW|)
    else if Reads(text, query, COARSE) then Some(query + |COARSE|)
    else None
  }

  /** The leftmost match at or after `i`: where it starts and where its head ends. */
  function FirstHead(text: Text, i: nat): (head: Option<(nat, nat)>)
    requires i <= |text|
    ensures head.Some? ==> head.value.0 < head.value.1 <= |text|
    decreases |text| - i
  {
    var end := HeadAt(text, i);
    if end.Some? then Some((i, end.value))
    else if i < |text| then FirstHead(text, i + 1)
    else None
  }

  function Turn(u: Unit): int
  {
    if u == OPEN_BRACE then 1 else if u == CLOSE_BRACE then -1 else 0
  }

  /** Just past the brace that brings `depth` back to zero, counting from `i`. */
  function Close(text: Text, i: nat, depth: nat): (end: Option<nat>)
    requires i <= |text|
    ensures end.Some? ==> i <= end.value <= |text|
    ensures end.Some? && depth > 0 ==> i < end.value && text[end.value - 1] == CLOSE_BRACE
    decreases |text| - i
  {
    if depth == 0 then Some(i)
    else if i == |text| then None
    else Close(text, i + 1, depth + Turn(text[i]))
  }

  /** A tier kept and copied, then the rest. */
  function Then(kept: Text, body: Text, rest: Result<seq<Piece>, nat>): Result<seq<Piece>, nat>
  {
    match rest
    case Success(pieces) => Success([Kept(kept), Inserted(body)] + pieces)
    case Failure(offset) => Failure(offset)
  }

  /** What comes next: no tier, one that never closes, or one with its body's start and what follows its close. */
  datatype Found = NoTier | Unclosed(offset: nat) | Tier(body: nat, close: nat)

  function NextTier(css: Text, cursor: nat): (found: Found)
    requires cursor <= |css|
    ensures found.Tier? ==> cursor < found.body < found.close <= |css|
  {
    var head := FirstHead(css[cursor..], 0);
    if head.None? then NoTier
    else
      var body := cursor + head.value.1;
      var close := Close(css, body, 1);
      if close.None? then Unclosed(cursor + head.value.0) else Tier(body, close.value)
  }

  /** From `cursor` on: the pieces of the output, or the offset of the tier that never closes. */
  function Copied(css: Text, cursor: nat): Result<seq<Piece>, nat>
    requires cursor <= |css|
    decreases |css| - cursor, 1
  {
    CopiedFrom(css, cursor, NextTier(css, cursor))
  }

  function CopiedFrom(css: Text, cursor: nat, found: Found): Result<seq<Piece>, nat>
    requires cursor <= |css| && (found.Tier? ==> cursor < found.body < found.close <= |css|)
    decreases |css| - cursor, 0
  {
    match found
    case NoTier => Success([Kept(css[cursor..])])
    case Unclosed(offset) => Failure(offset)
    case Tier(body, close) => Then(css[cursor..close], css[body..close - 1], Copied(css, close))
  }

  /** A piece as written, copies under `marker`. */
  function Shown(marker: Text, piece: Piece): Text
  {
    match piece
    case Kept(text) => text
    case Inserted(body) => marker + body + [CLOSE_BRACE, LINE_FEED]
  }

  function Render(marker: Text, pieces: seq<Piece>): Text
  {
    if pieces == [] then [] else Shown(marker, pieces[0]) + Render(marker, pieces[1..])
  }

  /** What a run that has written `result` so far ends with. */
  function After(marker: Text, result: Text, copied: Result<seq<Piece>, nat>): Result<Text, nat>
  {
    match copied
    case Success(pieces) => Success(result + Render(marker, pieces))
    case Failure(offset) => Failure(offset)
  }

  /** The inner loop: just past the brace that closes the tier whose body starts at `body`. */
  method FindClose(css: Text, body: nat) returns (index: Option<nat>)
    requires body <= |css|
    ensures index == Close(css, body, 1)
  {
    var depth: nat, at := 1, body;
    while depth > 0
      invariant body <= at <= |css|
      invariant Close(css, body, 1) == Close(css, at, depth)
      decreases |css| - at
    {
      if at == |css| {
        return None;
      }
      if css[at] == OPEN_BRACE {
        depth := depth + 1;
      }
      if css[at] == CLOSE_BRACE {
        depth := depth - 1;
      }
      at := at + 1;
    }
    index := Some(at);
  }

  method FindTier(css: Text, cursor: nat) returns (found: Found)
    requires cursor <= |css|
    ensures found == NextTier(css, cursor)
    ensures found.Tier? ==> cursor < found.body < found.close <= |css|
    ensures Copied(css, cursor) == CopiedFrom(css, cursor, found)
  {
    var head := FirstHead(css[cursor..], 0);
    if head.None? {
      return NoTier;
    }
    var start, open := cursor + head.value.0, cursor + head.value.1 - 1;
    var close := FindClose(css, open + 1);
    if close.None? {
      return Unclosed(start);
    }
    found := Tier(open + 1, close.value);
  }

  method WithPhoneTiersAtEveryWidth(css: Text) returns (output: Result<Text, nat>)
    ensures output == After(MARKER, [], Copied(css, 0))
  {
    var result: Text, cursor: nat := [], 0;
    var found := FindTier(css, cursor);
    while found.Tier?
      invariant cursor <= |css|
      invariant found.Tier? ==> cursor < found.body < found.close <= |css|
      invariant After(MARKER, [], Copied(css, 0)) == After(MARKER, result, CopiedFrom(css, cursor, found))
      decreases |css| - cursor
    {
      var kept, body := css[cursor..found.close], css[found.body..found.close - 1];
      Writes(MARKER, result, kept, body, Copied(css, found.close));
      result := result + (kept + (MARKER + body + [CLOSE_BRACE, LINE_FEED]));
      cursor := found.close;
      found := FindTier(css, cursor);
    }
    if found.Unclosed? {
      return Failure(found.offset);
    }
    RenderKept(MARKER, css[cursor..]);
    output := Success(result + css[cursor..]);
  }

  lemma {:induction false} RenderKept(marker: Text, text: Text)
    ensures Render(marker, [Kept(text)]) == text
  {
    assert [Kept(text)][1..] == [];
    assert text + [] == text;
  }

  lemma {:induction false} RenderPair(marker: Text, kept: Text, piece: Piece, rest: seq<Piece>)
    ensures Render(marker, [Kept(kept), piece] + rest) == kept + (Shown(marker, piece) + Render(marker, rest))
  {
    var all := [Kept(kept), piece] + rest;
    assert all[1..] == [piece] + rest && all[1..][1..] == rest;
  }

  lemma Writes(marker: Text, result: Text, kept: Text, body: Text, rest: Result<seq<Piece>, nat>)
    ensures After(marker, result, Then(kept, body, rest))
         == After(marker, result + (kept + Shown(marker, Inserted(body))), rest)
  {
    match rest
    case Failure(_) =>
    case Success(pieces) =>
      var block := Shown(marker, Inserted(body));
      RenderPair(marker, kept, Inserted(body), pieces);
      assert result + (kept + (block + Render(marker, pieces))) == (result + (kept + block)) + Render(marker, pieces);
  }
}

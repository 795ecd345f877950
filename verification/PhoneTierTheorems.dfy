/**
 What the phone tier copier promises: it only adds, it adds exactly the bodies of the tiers it meets, and it
 refuses a stylesheet exactly when a tier it meets never closes.
*/
module PhoneTierTheorems {
  import opened CodeUnits
  import opened PhoneTiers
  import opened Wrappers

  /** What it means for a text to read a word. */
  lemma {:induction false} ReadsEach(text: Text, i: nat, word: Text, n: nat)
    requires n <= |word| && i + n <= |text|
    ensures ReadsUpTo(text, i, word, n) <==> text[i..i + n] == word[..n]
  {
    if n > 0 {
      ReadsEach(text, i, word, n - 1);
      assert text[i..i + n] == text[i..i + n - 1] + [text[i + n - 1]];
      assert word[..n] == word[..n - 1] + [word[n - 1]];
      assert text[i..i + n][n - 1] == text[i + n - 1] && text[i..i + n][..n - 1] == text[i..i + n - 1];
      assert word[..n][..n - 1] == word[..n - 1];
    }
  }

  lemma ReadsIs(text: Text, i: nat, word: Text)
    ensures Reads(text, i, word) <==> i + |word| <= |text| && text[i..i + |word|] == word
  {
    if i + |word| <= |text| {
      ReadsEach(text, i, word, |word|);
      assert word[..|word|] == word;
    }
  }

  // --------------------------------------------------------- erasing copies

  /** The stylesheet the pieces were made from: the inserted copies erased. */
  function Originals(pieces: seq<Piece>): Text
  {
    if pieces == [] then []
    else (if pieces[0].Kept? then pieces[0].text else []) + Originals(pieces[1..])
  }

  /** For every stylesheet that is not refused, erasing the inserted copies gives it back exactly. */
  lemma {:induction false} ErasingCopiesRestores(css: Text)
    requires Copied(css, 0).Success?
    ensures Originals(Copied(css, 0).value) == css
  {
    ErasingFrom(css, 0, NextTier(css, 0));
  }

  lemma OriginalsOne(text: Text)
    ensures Originals([Kept(text)]) == text
  {
    assert [Kept(text)][1..] == [] && text + [] == text;
  }

  lemma {:induction false} ErasingThen(css: Text, cursor: nat, close: nat, copy: Text, rest: seq<Piece>)
    requires cursor <= close <= |css| && Originals(rest) == css[close..]
    ensures Originals([Kept(css[cursor..close]), Inserted(copy)] + rest) == css[cursor..]
  {
    OriginalsThen(css[cursor..close], copy, rest);
    assert css[cursor..close] + css[close..] == css[cursor..];
  }

  lemma {:induction false} ErasingFrom(css: Text, cursor: nat, found: Found)
    requires cursor <= |css| && (found.Tier? ==> cursor < found.body < found.close <= |css|)
    requires CopiedFrom(css, cursor, found).Success?
    ensures Originals(CopiedFrom(css, cursor, found).value) == css[cursor..]
    decreases |css| - cursor
  {
    if found.NoTier? {
      OriginalsOne(css[cursor..]);
    } else if found.Tier? {
      ErasingFrom(css, found.close, NextTier(css, found.close));
      ErasingThen(css, cursor, found.close, css[found.body..found.close - 1], Copied(css, found.close).value);
    }
  }

  lemma {:induction false} OriginalsThen(kept: Text, body: Text, rest: seq<Piece>)
    ensures Originals([Kept(kept), Inserted(body)] + rest) == kept + Originals(rest)
  {
    var pieces := [Kept(kept), Inserted(body)] + rest;
    assert pieces[1..] == [Inserted(body)] + rest && pieces[1..][1..] == rest;
    assert [] + Originals(rest) == Originals(rest);
  }

  // ------------------------------------------------------ where a tier ends

  /** How much deeper the text is nested at `j` than at `i`. */
  function Nesting(text: Text, i: nat, j: nat): int
    requires i <= j <= |text|
  {
    if i == j then 0 else Nesting(text, i, j - 1) + Turn(text[j - 1])
  }

  /** Inside the tier whose body starts at `body`, up to and with `k`. */
  predicate Inside(text: Text, body: nat, k: nat)
    requires body <= k <= |text|
  {
    1 + Nesting(text, body, k) > 0
  }

  lemma {:induction false} CloseFrom(text: Text, body: nat, i: nat, depth: nat)
    requires body <= i <= |text| && depth == 1 + Nesting(text, body, i)
    requires forall k :: body <= k < i ==> Inside(text, body, k)
    ensures Close(text, i, depth).Some? ==>
      var end := Close(text, i, depth).value;
      !Inside(text, body, end) && forall k :: body <= k < end ==> Inside(text, body, k)
    ensures Close(text, i, depth).None? ==> forall k :: body <= k <= |text| ==> Inside(text, body, k)
    decreases |text| - i
  {
    if depth > 0 && i < |text| {
      assert Inside(text, body, i);
      CloseFrom(text, body, i + 1, depth + Turn(text[i]));
    }
  }

  /** A tier closes at the first brace where its nesting depth returns to zero, and never iff it never does. */
  lemma {:induction false} CloseIsFirstBalance(text: Text, body: nat)
    requires body <= |text|
    ensures Close(text, body, 1).Some? ==>
      var end := Close(text, body, 1).value;
      && body < end && text[end - 1] == CLOSE_BRACE && 1 + Nesting(text, body, end) <= 0
      && forall k :: body <= k < end ==> Inside(text, body, k)
    ensures Close(text, body, 1).None? <==> forall k :: body <= k <= |text| ==> Inside(text, body, k)
  {
    CloseFrom(text, body, body, 1);
  }

  /** The head found is the leftmost one. */
  lemma {:induction false} FirstHeadIsLeftmost(text: Text, i: nat)
    requires i <= |text|
    ensures FirstHead(text, i).Some? ==>
      var head := FirstHead(text, i).value;
      i <= head.0 && HeadAt(text, head.0) == Some(head.1) && NoHead(text, i, head.0)
    ensures FirstHead(text, i).None? ==> NoHead(text, i, |text| + 1)
    decreases |text| - i
  {
    if HeadAt(text, i).None? && i < |text| { FirstHeadIsLeftmost(text, i + 1); }
  }

  lemma {:induction false} FirstHeadIsHead(text: Text, i: nat)
    requires i <= |text| && FirstHead(text, i).Some?
    ensures HeadAt(text, FirstHead(text, i).value.0) == Some(FirstHead(text, i).value.1)
  {
    FirstHeadIsLeftmost(text, i);
  }

  ghost predicate NoHead(text: Text, from: nat, to: nat)
    requires to <= |text| + 1
  {
    forall k :: from <= k < to ==> HeadAt(text, k).None?
  }

  // ------------------------------------------------ each copy is its tier's

  /** `kept` ends with a tier of body `body`: a head, the body, and the brace that closes it. */
  ghost predicate EndsWithTier(kept: Text, body: Text)
  {
    exists start: nat, open: nat ::
      && start < open && open + |body| + 1 == |kept|
      && HeadAt(kept, start) == Some(open)
      && kept[open..|kept| - 1] == body && kept[|kept| - 1] == CLOSE_BRACE && Balanced(body)
  }

  lemma {:induction false} SpaceInPrefix(text: Text, i: nat, n: nat)
    requires i <= n <= |text| && AfterSpace(text, i) <= n
    ensures AfterSpace(text[..n], i) == AfterSpace(text, i)
    decreases n - i
  {
    if i < n && Space(text[i]) { SpaceInPrefix(text, i + 1, n); }
  }

  /** A head is found as well in any prefix that holds it. */
  lemma HeadInPrefix(text: Text, i: nat, n: nat)
    requires i <= n <= |text| && HeadAt(text, i).Some? && HeadAt(text, i).value <= n
    ensures HeadAt(text[..n], i) == HeadAt(text, i)
  {
    var query := AfterSpace(text, i);
    SpaceInPrefix(text, i, n);
    ReadsInPrefix(text, query, n, NARROW);
    ReadsInPrefix(text, query, n, COARSE);
  }

  lemma ReadsInPrefix(text: Text, i: nat, n: nat, word: Text)
    requires n <= |text|
    ensures Reads(text[..n], i, word) <==> Reads(text, i, word) && i + |word| <= n
  {
    ReadsIs(text, i, word);
    ReadsIs(text[..n], i, word);
    if i + |word| <= n { assert text[..n][i..i + |word|] == text[i..i + |word|]; }
  }

  lemma {:induction false} NestingMoves(text: Text, i: nat, part: Text, j: nat)
    requires i + |part| <= |text| && text[i..i + |part|] == part && j <= |part|
    ensures Nesting(part, 0, j) == Nesting(text, i, i + j)
  {
    if j > 0 {
      NestingMoves(text, i, part, j - 1);
      assert part[j - 1] == text[i..i + |part|][j - 1];
    }
  }

  /** `body` is balanced and never closes more than it opened. */
  ghost predicate Balanced(body: Text)
  {
    Nesting(body, 0, |body|) == 0 && forall k :: 0 <= k <= |body| ==> Inside(body, 0, k)
  }

  lemma {:induction false} BodyIsBalanced(css: Text, body: nat, close: nat)
    requires body < close <= |css| && Close(css, body, 1) == Some(close)
    ensures Balanced(css[body..close - 1]) && css[close - 1] == CLOSE_BRACE
  {
    var part := css[body..close - 1];
    CloseIsFirstBalance(css, body);
    forall k | 0 <= k <= |part| ensures Inside(part, 0, k) {
      NestingMoves(css, body, part, k);
      assert Inside(css, body, body + k);
    }
    NestingMoves(css, body, part, |part|);
    assert Inside(css, body, close - 1);
  }

  /** The tier that comes next ends the text kept for it. */
  lemma TierIsKept(css: Text, cursor: nat)
    requires cursor <= |css|
    ensures TierEnds(css, cursor, NextTier(css, cursor))
  {
    var found := NextTier(css, cursor);
    if found.Tier? { FoundIsKept(css, cursor, css[cursor..], found.body, found.close); }
  }

  lemma {:induction false} FoundIsKept(css: Text, cursor: nat, text: Text, body: nat, close: nat)
    requires cursor < body < close <= |css| && text == css[cursor..] && Close(css, body, 1) == Some(close)
    requires FirstHead(text, 0).Some? && FirstHead(text, 0).value.1 == body - cursor
    ensures EndsWithTier(css[cursor..close], css[body..close - 1])
  {
    var start := FirstHead(text, 0).value.0;
    FirstHeadIsHead(text, 0);
    HeadInPrefix(text, start, close - cursor);
    TierOfHead(css, cursor, text[..close - cursor], start, body, close);
  }

  ghost predicate TierEnds(css: Text, cursor: nat, found: Found)
  {
    found.Tier? ==>
      && cursor < found.body < found.close <= |css|
      && EndsWithTier(css[cursor..found.close], css[found.body..found.close - 1])
  }

  lemma {:induction false} TierOfHead(css: Text, cursor: nat, kept: Text, start: nat, body: nat, close: nat)
    requires cursor < body < close <= |css| && start < body - cursor && kept == css[cursor..][..close - cursor]
    requires HeadAt(kept, start) == Some(body - cursor) && Close(css, body, 1) == Some(close)
    ensures EndsWithTier(css[cursor..close], css[body..close - 1])
  {
    assert kept == css[cursor..close];
    BodyIsBalanced(css, body, close);
    Slices(css, cursor, body, close - cursor - 1, close);
    EndsWith(kept, css[body..close - 1], start, body - cursor);
  }

  lemma EndsWith(kept: Text, body: Text, start: nat, open: nat)
    requires start < open && open + |body| + 1 == |kept| && HeadAt(kept, start) == Some(open)
    requires kept[open..|kept| - 1] == body && kept[|kept| - 1] == CLOSE_BRACE && Balanced(body)
    ensures EndsWithTier(kept, body)
  {
    assert kept[open..|kept| - 1] == body && HeadAt(kept, start) == Some(open);
  }

  /** A slice of a slice. */
  lemma Slices(css: Text, from: nat, start: nat, end: nat, to: nat)
    requires from <= start <= from + end <= to <= |css|
    ensures css[from..to][start - from..end] == css[start..from + end]
  {
    var inner, outer := css[start..from + end], css[from..to][start - from..end];
    assert |inner| == |outer| && forall i :: 0 <= i < |inner| ==> inner[i] == outer[i];
  }

  /** Each inserted copy comes right after kept text that ends with its own tier. */
  ghost predicate Follow(pieces: seq<Piece>)
  {
    forall k :: 0 <= k < |pieces| && pieces[k].Inserted? ==>
      0 < k && pieces[k - 1].Kept? && EndsWithTier(pieces[k - 1].text, pieces[k].body)
  }

  lemma FollowThen(kept: Text, body: Text, rest: seq<Piece>)
    requires EndsWithTier(kept, body) && Follow(rest)
    ensures Follow([Kept(kept), Inserted(body)] + rest)
  {
    var pieces := [Kept(kept), Inserted(body)] + rest;
    forall k | 0 <= k < |pieces| && pieces[k].Inserted?
      ensures 0 < k && pieces[k - 1].Kept? && EndsWithTier(pieces[k - 1].text, pieces[k].body)
    {
      if k >= 2 { assert pieces[k] == rest[k - 2]; }
    }
  }

  /** In the output each copy comes right after its own tier, and repeats exactly the tier's body. */
  lemma {:induction false} CopiesFollowTheirTier(css: Text)
    requires Copied(css, 0).Success?
    ensures Follow(Copied(css, 0).value)
  {
    TierIsKept(css, 0);
    CopiesFollow(css, 0, NextTier(css, 0));
  }

  lemma {:induction false} CopiesFollow(css: Text, cursor: nat, found: Found)
    requires cursor <= |css| && TierEnds(css, cursor, found) && CopiedFrom(css, cursor, found).Success?
    ensures Follow(CopiedFrom(css, cursor, found).value)
    decreases |css| - cursor
  {
    if found.Tier? {
      TierIsKept(css, found.close);
      CopiesFollow(css, found.close, NextTier(css, found.close));
      FollowThen(css[cursor..found.close], css[found.body..found.close - 1], Copied(css, found.close).value);
    }
  }

  // ---------------------------------------------------------- when it throws

  /** Every place the copier looks for a tier from. */
  function Reached(css: Text, cursor: nat): seq<nat>
    requires cursor <= |css|
    decreases |css| - cursor
  {
    var tier := NextTier(css, cursor);
    [cursor] + (if tier.Tier? then Reached(css, tier.close) else [])
  }

  ghost predicate NeverBalances(text: Text, body: nat)
    requires body <= |text|
  {
    forall k :: body <= k <= |text| ==> Inside(text, body, k)
  }

  /** From `cursor` the next tier is at `at`, and its nesting never comes back to zero. */
  ghost predicate NeverCloses(css: Text, cursor: nat, at: nat)
  {
    cursor <= |css| &&
    var head := FirstHead(css[cursor..], 0);
    && head.Some? && at == cursor + head.value.0
    && NeverBalances(css, cursor + head.value.1)
  }

  /** The stylesheet is refused at `at` exactly when a tier the copier reaches there never closes. */
  lemma {:induction false} ThrowsIffNeverCloses(css: Text, cursor: nat, at: nat)
    requires cursor <= |css|
    ensures Copied(css, cursor) == Failure(at)
       <==> exists k :: 0 <= k < |Reached(css, cursor)| && NeverCloses(css, Reached(css, cursor)[k], at)
    decreases |css| - cursor
  {
    var tier, all := NextTier(css, cursor), Reached(css, cursor);
    NeverClosesIsUnclosed(css, cursor, at);
    assert all[0] == cursor;
    if tier.Tier? {
      var rest := Reached(css, tier.close);
      ThrowsIffNeverCloses(css, tier.close, at);
      assert forall k :: 0 <= k < |rest| ==> rest[k] == all[k + 1];
      assert forall k :: 1 <= k < |all| ==> all[k] == rest[k - 1];
    }
  }

  lemma NeverClosesIsUnclosed(css: Text, cursor: nat, at: nat)
    requires cursor <= |css|
    ensures NeverCloses(css, cursor, at) <==> NextTier(css, cursor) == Unclosed(at)
  {
    var head := FirstHead(css[cursor..], 0);
    if head.Some? { CloseIsFirstBalance(css, cursor + head.value.1); }
  }

  // --------------------------------------------------- erasing from the text

  predicate MarkedAt(marker: Text, text: Text, i: nat)
  {
    Reads(text, i, marker)
  }

  /** The length of the marked block the text begins with: marker, body, close and one line feed; 0 without one. */
  function Block(marker: Text, text: Text): (length: nat)
    ensures length <= |text|
  {
    var close := if MarkedAt(marker, text, 0) then Close(text, |marker|, 1) else None;
    if close.None? then 0
    else if close.value < |text| && text[close.value] == LINE_FEED then close.value + 1
    else close.value
  }

  /** The text with every marked block erased. */
  function Unmarked(marker: Text, text: Text): Text
    decreases |text|
  {
    if text == [] then []
    else if Block(marker, text) == 0 then [text[0]] + Unmarked(marker, text[1..])
    else Unmarked(marker, text[Block(marker, text)..])
  }

  ghost predicate Unused(marker: Text, text: Text)
  {
    forall i :: 0 <= i < |text| ==> !MarkedAt(marker, text, i)
  }

  /** Only such a marker is certain to start a block of its own: it never closes a brace. */
  predicate ClosesNothing(marker: Text)
  {
    CLOSE_BRACE !in marker && |marker| > 0
  }

  lemma ReadsOn(text: Text, i: nat, word: Text)
    requires text != [] && Reads(text[1..], i, word)
    ensures Reads(text, i + 1, word)
  {
    ReadsIs(text, i + 1, word);
    ReadsIs(text[1..], i, word);
    assert text[1..][i..i + |word|] == text[i + 1..i + 1 + |word|];
  }

  lemma UnusedTail(marker: Text, text: Text)
    requires text != [] && Unused(marker, text)
    ensures Unused(marker, text[1..])
  {
    forall i | 0 <= i < |text| - 1 ensures !MarkedAt(marker, text[1..], i) {
      if MarkedAt(marker, text[1..], i) {
        ReadsOn(text, i, marker);
        assert MarkedAt(marker, text, i + 1);
      }
    }
  }

  lemma ReadsAcross(kept: Text, rest: Text, word: Text)
    requires kept != [] && Reads(kept + rest, 0, word)
    ensures |word| <= |kept| ==> Reads(kept, 0, word)
    ensures |kept| < |word| ==> word[|kept| - 1] == kept[|kept| - 1]
  {
    var all := kept + rest;
    ReadsIs(all, 0, word);
    ReadsIs(kept, 0, word);
    assert all[|kept| - 1] == kept[|kept| - 1];
    if |word| <= |kept| { assert all[0..|word|] == kept[0..|word|]; }
    else { assert all[0..|word|][|kept| - 1] == word[|kept| - 1]; }
  }

  /** No marker starts in text that holds none and ends with a closing brace. */
  lemma NoMarkerAcross(marker: Text, kept: Text, rest: Text)
    requires ClosesNothing(marker)
    requires kept != [] && Unused(marker, kept) && (rest == [] || kept[|kept| - 1] == CLOSE_BRACE)
    ensures !MarkedAt(marker, kept + rest, 0)
  {
    assert !MarkedAt(marker, kept, 0);
    if MarkedAt(marker, kept + rest, 0) { ReadsAcross(kept, rest, marker); }
  }

  /** Such text is left alone. */
  lemma {:induction false} UnmarkedKeeps(marker: Text, kept: Text, rest: Text)
    requires ClosesNothing(marker)
    requires Unused(marker, kept) && (rest == [] || kept == [] || kept[|kept| - 1] == CLOSE_BRACE)
    ensures Unmarked(marker, kept + rest) == kept + Unmarked(marker, rest)
    decreases |kept|
  {
    if kept == [] {
      assert kept + rest == rest && [] + Unmarked(marker, rest) == Unmarked(marker, rest);
    } else {
      NoMarkerAcross(marker, kept, rest);
      UnusedTail(marker, kept);
      UnmarkedKeeps(marker, kept[1..], rest);
      Peel(kept, rest, Unmarked(marker, rest));
    }
  }

  lemma Peel(kept: Text, rest: Text, unmarked: Text)
    requires kept != []
    ensures (kept + rest)[0] == kept[0] && (kept + rest)[1..] == kept[1..] + rest
    ensures [kept[0]] + (kept[1..] + unmarked) == kept + unmarked
  {
  }

  lemma {:induction false} CloseMoves(css: Text, i: nat, close: nat, text: Text, k: nat, depth: nat)
    requires i <= close <= |css| && k + (close - i) <= |text|
    requires Close(css, i, depth) == Some(close)
    requires text[k..k + (close - i)] == css[i..close]
    ensures Close(text, k, depth) == Some(k + (close - i))
    decreases close - i
  {
    if depth > 0 {
      assert text[k..k + (close - i)][0] == css[i..close][0];
      assert text[k..k + (close - i)][1..] == css[i..close][1..];
      CloseMoves(css, i + 1, close, text, k + 1, depth + Turn(css[i]));
    }
  }

  /** An inserted block is erased, and nothing else. */
  lemma {:induction false} UnmarkedErases(marker: Text, css: Text, body: nat, close: nat, rest: Text)
    requires ClosesNothing(marker)
    requires body < close <= |css| && Close(css, body, 1) == Some(close) && css[close - 1] == CLOSE_BRACE
    ensures Unmarked(marker, Shown(marker, Inserted(css[body..close - 1])) + rest) == Unmarked(marker, rest)
  {
    var block := Shown(marker, Inserted(css[body..close - 1]));
    BlockIsShown(marker, css, body, close, rest);
    assert (block + rest)[|block|..] == rest;
  }

  lemma {:induction false} BlockIsShown(marker: Text, css: Text, body: nat, close: nat, rest: Text)
    requires ClosesNothing(marker)
    requires body < close <= |css| && Close(css, body, 1) == Some(close) && css[close - 1] == CLOSE_BRACE
    ensures var block := Shown(marker, Inserted(css[body..close - 1]));
      |block| > 0 && Block(marker, block + rest) == |block|
  {
    var part := css[body..close - 1];
    var text := Shown(marker, Inserted(part)) + rest;
    var after := |marker| + |part| + 1;
    assert css[body..close] == part + [CLOSE_BRACE];
    assert text == marker + css[body..close] + ([LINE_FEED] + rest);
    Parts(marker, css[body..close], [LINE_FEED] + rest);
    ReadsIs(text, 0, marker);
    CloseMoves(css, body, close, text, |marker|, 1);
    assert text[after..][0] == LINE_FEED;
  }

  lemma Parts(first: Text, second: Text, third: Text)
    ensures var text := first + second + third;
      && text[0..|first|] == first
      && text[|first|..|first| + |second|] == second
      && text[|first| + |second|..] == third
  {
  }

  lemma ReadsInPart(css: Text, from: nat, to: nat, i: nat, word: Text)
    requires from <= to <= |css| && Reads(css[from..to], i, word)
    ensures Reads(css, from + i, word)
  {
    ReadsIs(css, from + i, word);
    ReadsIs(css[from..to], i, word);
    Slices(css, from, from + i, i + |word|, to);
  }

  lemma UnusedPart(marker: Text, css: Text, from: nat, to: nat)
    requires from <= to <= |css| && Unused(marker, css)
    ensures Unused(marker, css[from..to])
  {
    forall i | 0 <= i < to - from ensures !MarkedAt(marker, css[from..to], i) {
      if MarkedAt(marker, css[from..to], i) {
        ReadsInPart(css, from, to, i, marker);
        assert MarkedAt(marker, css, from + i);
      }
    }
  }

  ghost predicate Bounded(css: Text, cursor: nat, found: Found)
  {
    cursor <= |css| && (found.Tier? ==>
      && cursor < found.body < found.close <= |css|
      && Close(css, found.body, 1) == Some(found.close) && css[found.close - 1] == CLOSE_BRACE)
  }

  lemma NextIsBounded(css: Text, cursor: nat)
    requires cursor <= |css|
    ensures Bounded(css, cursor, NextTier(css, cursor))
  {
  }

  /** What the pieces are written as, unmarked, is `original`. */
  ghost predicate Undone(marker: Text, pieces: Result<seq<Piece>, nat>, original: Text)
  {
    pieces.Success? ==> Unmarked(marker, Render(marker, pieces.value)) == original
  }

  lemma UndoneEnd(marker: Text, css: Text, cursor: nat)
    requires cursor <= |css| && Unused(marker, css) && ClosesNothing(marker)
    ensures Undone(marker, Success([Kept(css[cursor..])]), css[cursor..])
  {
    RenderKept(marker, css[cursor..]);
    UnusedPart(marker, css, cursor, |css|);
    assert css[cursor..|css|] == css[cursor..] && css[cursor..] + [] == css[cursor..];
    UnmarkedKeeps(marker, css[cursor..], []);
  }

  lemma {:induction false} UnmarkedAround(marker: Text, css: Text, cursor: nat, close: nat, block: Text, tail: Text)
    requires cursor < close <= |css| && css[close - 1] == CLOSE_BRACE
    requires Unused(marker, css[cursor..close]) && ClosesNothing(marker)
    requires Unmarked(marker, block + tail) == css[close..]
    ensures Unmarked(marker, css[cursor..close] + (block + tail)) == css[cursor..]
  {
    UnmarkedKeeps(marker, css[cursor..close], block + tail);
    assert css[cursor..close] + css[close..] == css[cursor..];
  }

  lemma {:induction false} UndoneThen(marker: Text, css: Text, cursor: nat, body: nat, close: nat,
                                      rest: Result<seq<Piece>, nat>)
    requires Unused(marker, css) && ClosesNothing(marker)
    requires cursor < body < close <= |css| && Close(css, body, 1) == Some(close) && css[close - 1] == CLOSE_BRACE
    requires Undone(marker, rest, css[close..])
    ensures Undone(marker, Then(css[cursor..close], css[body..close - 1], rest), css[cursor..])
  {
    if rest.Success? {
      var copy, tail := Inserted(css[body..close - 1]), Render(marker, rest.value);
      RenderPair(marker, css[cursor..close], copy, rest.value);
      UnusedPart(marker, css, cursor, close);
      UnmarkedErases(marker, css, body, close, tail);
      UnmarkedAround(marker, css, cursor, close, Shown(marker, copy), tail);
    }
  }

  /** One tier less to undo: `all` are the pieces from `cursor`, `rest` those after the tier found there. */
  lemma UndoneFound(marker: Text, css: Text, cursor: nat, found: Found, all: Result<seq<Piece>, nat>,
                    rest: Result<seq<Piece>, nat>)
    requires Unused(marker, css) && ClosesNothing(marker) && Bounded(css, cursor, found)
    requires found.NoTier? ==> all == Success([Kept(css[cursor..])])
    requires found.Unclosed? ==> all == Failure(found.offset)
    requires found.Tier? ==> all == Then(css[cursor..found.close], css[found.body..found.close - 1], rest)
    requires found.Tier? ==> Undone(marker, rest, css[found.close..])
    ensures Undone(marker, all, css[cursor..])
  {
    if found.Tier? {
      UndoneThen(marker, css, cursor, found.body, found.close, rest);
    } else if found.NoTier? {
      UndoneEnd(marker, css, cursor);
    }
  }

  lemma {:induction false} UnmarkedFrom(marker: Text, css: Text, cursor: nat)
    requires cursor <= |css| && Unused(marker, css) && ClosesNothing(marker)
    ensures Undone(marker, Copied(css, cursor), css[cursor..])
    decreases |css| - cursor
  {
    var found := NextTier(css, cursor);
    NextIsBounded(css, cursor);
    assert Copied(css, cursor) == CopiedFrom(css, cursor, found);
    if found.Tier? {
      UnmarkedFrom(marker, css, found.close);
      UndoneFound(marker, css, cursor, found, Copied(css, cursor), Copied(css, found.close));
    } else {
      UndoneFound(marker, css, cursor, found, Copied(css, cursor), Copied(css, cursor));
    }
  }

  /**
   For every stylesheet that never spells the marker itself, the written text alone is enough to undo the copy:
   erasing each marked block gives the stylesheet back exactly.
  */
  lemma {:induction false} UnmarkingRestores(css: Text)
    requires Unused(MARKER, css) && Copied(css, 0).Success?
    ensures Unmarked(MARKER, Render(MARKER, Copied(css, 0).value)) == css
  {
    MarkerClosesNothing();
    UnmarkedFrom(MARKER, css, 0);
    assert css[0..] == css;
  }

  lemma MarkerClosesNothing()
    ensures ClosesNothing(MARKER)
  {
  }
}

/**
 The phone tier copier as one relation between two texts: what a tier's head reads, where it may stand, and what is
 written after each tier, all spelled out.
*/
module PhoneTierText {
  import opened CodeUnits
  import opened PhoneTiers
  import opened PhoneTierTheorems
  import opened Wrappers

  // What `\s` matches, and what `^` may follow: sections 12.2 and 12.3 of ECMA-262.
  const LINE_ENDS: set<int> := {0x0a, 0x0d, 0x2028, 0x2029}
  const SPACES: set<int> :=
    LINE_ENDS + {0x09, 0x0b, 0x0c, 0x20, 0xa0, 0xfeff, 0x1680, 0x2000, 0x2001, 0x2002, 0x2003, 0x2004, 0x2005,
                 0x2006, 0x2007, 0x2008, 0x2009, 0x200a, 0x202f, 0x205f, 0x3000}

  /** The words `@media \((?:max-width: 767px|pointer: coarse)\) \{` matches. */
  predicate Query(word: Text)
  {
    word == Ascii("@media (max-width: 767px) {") || word == Ascii("@media (pointer: coarse) {")
  }

  predicate SpacesIn(text: Text, i: nat, j: nat)
    requires j <= |text|
  {
    forall k :: i <= k < j ==> text[k] in SPACES
  }

  /** The anchored expression matches from `i` to `end`: white space at a line start, then a query. */
  ghost predicate HeadReads(text: Text, i: nat, end: nat)
  {
    && i <= end <= |text|
    && (i == 0 || text[i - 1] in LINE_ENDS)
    && exists query: nat :: i <= query <= end && SpacesIn(text, i, query) && Query(text[query..end])
  }

  lemma SpaceIsListed(u: Unit)
    ensures Space(u) <==> u in SPACES
    ensures Terminator(u) <==> u in LINE_ENDS
  {
  }

  lemma {:induction false} AfterSpaceIs(text: Text, i: nat, query: nat)
    requires i <= query <= |text|
    ensures AfterSpace(text, i) == query
       <==> SpacesIn(text, i, query) && (query < |text| ==> text[query] !in SPACES)
    decreases query - i
  {
    if i < |text| { SpaceIsListed(text[i]); }
    if i < query && Space(text[i]) { AfterSpaceIs(text, i + 1, query); }
  }

  lemma QueryIsSpelled(word: Text)
    ensures Query(word) <==> word == NARROW || word == COARSE
    ensures Query(word) ==> |word| > 8 && word[0] !in SPACES
    ensures NARROW[8] != COARSE[8]
  {
  }

  lemma ReadsUnit(text: Text, i: nat, word: Text, k: nat)
    requires Reads(text, i, word) && k < |word|
    ensures text[i + k] == word[k]
  {
    ReadsIs(text, i, word);
    assert text[i..i + |word|][k] == text[i + k];
  }

  lemma {:induction false} HeadAtIs(text: Text, i: nat, end: nat)
    requires i <= |text|
    ensures HeadAt(text, i) == Some(end)
       <==> end <= |text| && LineStart(text, i) && AfterSpace(text, i) <= end && Query(text[AfterSpace(text, i)..end])
  {
    var query := AfterSpace(text, i);
    ReadsIs(text, query, NARROW);
    ReadsIs(text, query, COARSE);
    if query <= end <= |text| { QueryIsSpelled(text[query..end]); }
    QueryIsSpelled([]);
    if Reads(text, query, NARROW) { ReadsUnit(text, query, NARROW, 8); }
    if Reads(text, query, COARSE) { ReadsUnit(text, query, COARSE, 8); }
  }

  /** The copier's head is the anchored expression's match. */
  lemma {:induction false} HeadIsMatch(text: Text, i: nat, end: nat)
    requires i <= |text|
    ensures HeadAt(text, i) == Some(end) <==> HeadReads(text, i, end)
  {
    var query := AfterSpace(text, i);
    HeadAtIs(text, i, end);
    AfterSpaceIs(text, i, query);
    if i > 0 { SpaceIsListed(text[i - 1]); }
    if HeadReads(text, i, end) {
      var from: nat :| i <= from <= end && SpacesIn(text, i, from) && Query(text[from..end]);
      QueryIsSpelled(text[from..end]);
      assert text[from] == text[from..end][0];
      AfterSpaceIs(text, i, from);
    }
  }

  /** No match at all, or the leftmost one. */
  ghost predicate NoMatch(text: Text, before: nat)
  {
    forall i: nat, end: nat :: i < before ==> !HeadReads(text, i, end)
  }

  ghost predicate Leftmost(text: Text, start: nat, open: nat)
  {
    HeadReads(text, start, open) && NoMatch(text, start)
  }

  lemma {:induction false} NoHeadIsNoMatch(text: Text, before: nat)
    requires before <= |text| + 1
    ensures NoHead(text, 0, before) <==> NoMatch(text, before)
  {
    forall i: nat, end: nat | i < before ensures HeadReads(text, i, end) <==> HeadAt(text, i) == Some(end) {
      HeadIsMatch(text, i, end);
    }
    forall i | 0 <= i < before && HeadAt(text, i).Some? ensures HeadReads(text, i, HeadAt(text, i).value) {
      HeadIsMatch(text, i, HeadAt(text, i).value);
    }
  }

  /** The head the copier takes is the leftmost match, and it takes none exactly when nothing matches. */
  lemma {:induction false} FirstHeadIsLeftmostMatch(text: Text, start: nat, open: nat)
    ensures FirstHead(text, 0) == Some((start, open)) <==> Leftmost(text, start, open)
    ensures FirstHead(text, 0).None? <==> NoMatch(text, |text| + 1)
  {
    FirstHeadIsLeftmost(text, 0);
    NoHeadIsNoMatch(text, |text| + 1);
    if start <= |text| {
      NoHeadIsNoMatch(text, start);
      HeadIsMatch(text, start, open);
    }
    var head := FirstHead(text, 0);
    if head.Some? { HeadIsMatch(text, head.value.0, head.value.1); }
    if head.Some? && Leftmost(text, start, open) {
      NoHeadIsNoMatch(text, head.value.0);
      assert HeadReads(text, head.value.0, head.value.1);
    }
  }

  /** `css` is `kept` and then `rest`: kept up to the end of its first tier, whose body is `body`. */
  ghost predicate FirstTier(css: Text, kept: Text, body: Text, rest: Text)
  {
    && css == kept + rest && Balanced(body)
    && exists start: nat, open: nat :: Leftmost(css, start, open) && kept == css[..open] + body + [CLOSE_BRACE]
  }

  /** Kept up to a tier's end, its body again under `rule`, and `more` after it. */
  function Extended(rule: Text, kept: Text, body: Text, more: Text): Text
  {
    kept + (rule + body + Ascii("}\n")) + more
  }

  /** `output` is the stylesheet with every tier's body repeated under `rule`: the first tier's, then the rest's. */
  ghost predicate Widened(rule: Text, css: Text, output: Text)
    decreases |css|
  {
    || (NoMatch(css, |css| + 1) && output == css)
    || exists kept: Text, body: Text, rest: Text, more: Text ::
      FirstTier(css, kept, body, rest) && Widened(rule, rest, more) && output == Extended(rule, kept, body, more)
  }

  /** A balanced body and a closing brace are what the copier takes for the tier. */
  lemma {:induction false} BalancedCloses(css: Text, open: nat, body: Text)
    requires open + |body| + 1 <= |css| && css[open..open + |body|] == body && css[open + |body|] == CLOSE_BRACE
    requires Balanced(body)
    ensures Close(css, open, 1) == Some(open + |body| + 1)
  {
    var close := open + |body|;
    forall k | open <= k <= close ensures Inside(css, open, k) {
      NestingMoves(css, open, body, k - open);
      assert Inside(body, 0, k - open);
    }
    NestingMoves(css, open, body, |body|);
    CloseIsFirstBalance(css, open);
    assert !Inside(css, open, close + 1);
    assert !Inside(css, open, Close(css, open, 1).value);
  }

  /** The slices a tier is cut into, seen from the stylesheet and from what is left of it at `cursor`. */
  lemma CutsAgree(css: Text, cursor: nat, text: Text, body: nat, close: nat)
    requires cursor <= body < close <= |css| && text == css[cursor..]
    ensures text == css[cursor..close] + css[close..]
    ensures css[cursor..close] == text[..body - cursor] + css[body..close - 1] + [css[close - 1]]
  {
  }

  lemma {:induction false} TierIsBalanced(css: Text, body: nat, close: nat)
    requires body < close <= |css| && Close(css, body, 1) == Some(close)
    ensures Balanced(css[body..close - 1]) == true && css[close - 1] == CLOSE_BRACE
  {
    BodyIsBalanced(css, body, close);
  }

  /** The next tier's head is the leftmost match in what is left. */
  lemma {:induction false} NextIsLeftmost(css: Text, cursor: nat, text: Text, body: nat, close: nat)
    returns (start: nat)
    requires cursor <= |css| && text == css[cursor..] && NextTier(css, cursor) == Tier(body, close)
    ensures cursor < body < close <= |css| && Close(css, body, 1) == Some(close)
    ensures Leftmost(text, start, body - cursor) == true
  {
    start := FirstHead(text, 0).value.0;
    FirstHeadIsLeftmostMatch(text, start, body - cursor);
  }

  lemma CutIsFirstTier(text: Text, start: nat, open: nat, kept: Text, body: Text, rest: Text)
    requires open <= |text| && text == kept + rest && kept == text[..open] + body + [CLOSE_BRACE]
    requires Leftmost(text, start, open) == true && Balanced(body) == true
    ensures FirstTier(text, kept, body, rest) == true
  {
  }

  /** What the copier finds next is the first tier of what is left. */
  lemma {:induction false} NextIsFirstTier(css: Text, cursor: nat, text: Text, body: nat, close: nat)
    returns (kept: Text, copy: Text, tail: Text)
    requires cursor <= |css| && text == css[cursor..] && NextTier(css, cursor) == Tier(body, close)
    ensures cursor < close <= |css| && tail == css[close..] && FirstTier(text, kept, copy, tail) == true
    ensures Copied(css, cursor) == Then(kept, copy, Copied(css, close))
  {
    var start := NextIsLeftmost(css, cursor, text, body, close);
    CutsAgree(css, cursor, text, body, close);
    CopiedPastTier(css, cursor, body, close);
    TierIsBalanced(css, body, close);
    kept, copy, tail := css[cursor..close], css[body..close - 1], css[close..];
    CutIsFirstTier(text, start, body - cursor, kept, copy, tail);
  }

  lemma CopiedPastTier(css: Text, cursor: nat, body: nat, close: nat)
    requires cursor <= |css| && NextTier(css, cursor) == Tier(body, close)
    ensures Copied(css, cursor) == Then(css[cursor..close], css[body..close - 1], Copied(css, close))
  {
  }

  lemma {:induction false} FirstTierOpens(text: Text, kept: Text, body: Text, rest: Text) returns (start: nat,
                                          open: nat)
    requires FirstTier(text, kept, body, rest) == true
    ensures Leftmost(text, start, open) == true && open <= |text| && kept == text[..open] + body + [CLOSE_BRACE]
    ensures text == kept + rest && Balanced(body) == true
  {
    start, open :| Leftmost(text, start, open) && kept == text[..open] + body + [CLOSE_BRACE];
  }

  lemma BodyInText(css: Text, cursor: nat, text: Text, open: nat, kept: Text, body: Text, rest: Text)
    requires cursor <= |css| && text == css[cursor..] && open <= |text|
    requires text == kept + rest && kept == text[..open] + body + [CLOSE_BRACE]
    ensures cursor + open + |body| + 1 <= |css|
    ensures css[cursor + open..cursor + open + |body|] == body && css[cursor + open + |body|] == CLOSE_BRACE
  {
    assert kept[open..open + |body|] == body && kept[open + |body|] == CLOSE_BRACE;
    assert text[open..open + |body|] == kept[open..open + |body|] && text[open + |body|] == kept[open + |body|];
    assert css[cursor + open..cursor + open + |body|] == text[open..open + |body|];
  }

  lemma {:induction false} FirstTierIsNext(css: Text, cursor: nat, text: Text, kept: Text, body: Text, rest: Text)
    requires cursor <= |css| && text == css[cursor..] && FirstTier(text, kept, body, rest) == true
    ensures NextTier(css, cursor) == Tier(cursor + |kept| - 1 - |body|, cursor + |kept|)
  {
    var start, open := FirstTierOpens(text, kept, body, rest);
    FirstHeadIsLeftmostMatch(text, start, open);
    CutIsNext(css, cursor, text, start, open, kept, body, rest);
  }

  lemma {:induction false} CutIsNext(css: Text, cursor: nat, text: Text, start: nat, open: nat, kept: Text, body: Text,
                                     rest: Text)
    requires cursor <= |css| && text == css[cursor..] && open <= |text|
    requires text == kept + rest && kept == text[..open] + body + [CLOSE_BRACE] && Balanced(body) == true
    requires FirstHead(text, 0) == Some((start, open))
    ensures NextTier(css, cursor) == Tier(cursor + |kept| - 1 - |body|, cursor + |kept|)
  {
    BodyInText(css, cursor, text, open, kept, body, rest);
    BalancedCloses(css, cursor + open, body);
    NextIs(css, cursor, text, start, open, cursor + |kept|);
  }

  lemma {:induction false} NextIs(css: Text, cursor: nat, text: Text, start: nat, open: nat, close: nat)
    requires cursor <= |css| && text == css[cursor..] && FirstHead(text, 0) == Some((start, open))
    requires Close(css, cursor + open, 1) == Some(close)
    ensures NextTier(css, cursor) == Tier(cursor + open, close)
  {
  }

  lemma {:induction false} FirstTierIsUnique(css: Text, kept: Text, body: Text, rest: Text, kept': Text, body': Text,
                                             rest': Text)
    requires FirstTier(css, kept, body, rest) == true && FirstTier(css, kept', body', rest') == true
    ensures kept == kept' && body == body' && rest == rest'
  {
    assert css[0..] == css;
    FirstTierIsNext(css, 0, css, kept, body, rest);
    FirstTierIsNext(css, 0, css, kept', body', rest');
    FirstTierIsCut(css, kept, body, rest);
    FirstTierIsCut(css, kept', body', rest');
  }

  lemma {:induction false} FirstTierIsCut(css: Text, kept: Text, body: Text, rest: Text)
    requires FirstTier(css, kept, body, rest) == true
    ensures |body| < |kept| <= |css| && kept == css[..|kept|] && rest == css[|kept|..]
    ensures body == kept[|kept| - 1 - |body|..|kept| - 1]
    ensures !NoMatch(css, |css| + 1) == true
  {
    var start, open := FirstTierOpens(css, kept, body, rest);
    assert HeadReads(css, start, open);
  }

  // ------------------------------------------------------ the whole output

  lemma {:induction false} WidenedWithoutTier(rule: Text, css: Text, output: Text)
    requires NoMatch(css, |css| + 1)
    ensures Widened(rule, css, output) <==> output == css
  {
    forall kept, body, rest | FirstTier(css, kept, body, rest) ensures false {
      FirstTierIsCut(css, kept, body, rest);
    }
  }

  lemma {:induction false} WidenedWithUnclosed(rule: Text, css: Text, cursor: nat, text: Text, output: Text)
    requires cursor <= |css| && text == css[cursor..] && NextTier(css, cursor).Unclosed?
    ensures !Widened(rule, text, output)
  {
    FirstHeadIsLeftmostMatch(text, 0, 0);
    forall kept, body, rest | FirstTier(text, kept, body, rest) ensures false {
      FirstTierIsNext(css, cursor, text, kept, body, rest);
    }
  }

  /** With its first tier known, a stylesheet is widened exactly when the rest after that tier is. */
  lemma {:induction false} WidenedWithTier(rule: Text, css: Text, kept: Text, body: Text, rest: Text, output: Text)
    requires FirstTier(css, kept, body, rest) == true
    ensures Widened(rule, css, output)
       <==> exists more :: Widened(rule, rest, more) && output == Extended(rule, kept, body, more)
  {
    FirstTierIsCut(css, kept, body, rest);
    if Widened(rule, css, output) {
      var kept', body', rest', more := WidenedPastTier(rule, css, output);
      FirstTierIsUnique(css, kept, body, rest, kept', body', rest');
    }
  }

  lemma {:induction false} WidenedPastTier(rule: Text, css: Text, output: Text)
    returns (kept: Text, body: Text, rest: Text, more: Text)
    requires Widened(rule, css, output) && !NoMatch(css, |css| + 1) == true
    ensures FirstTier(css, kept, body, rest) == true && Widened(rule, rest, more) == true
    ensures output == Extended(rule, kept, body, more)
  {
    kept, body, rest, more :|
      FirstTier(css, kept, body, rest) && Widened(rule, rest, more) && output == Extended(rule, kept, body, more);
  }

  lemma {:induction false} AfterNothing(rule: Text, copied: Result<seq<Piece>, nat>, output: Text)
    ensures After(rule, [], copied) == Success(output)
       <==> copied.Success? && output == Render(rule, copied.value)
  {
    if copied.Success? { assert [] + Render(rule, copied.value) == Render(rule, copied.value); }
  }

  /** What a run writes when it has `kept` and its copy before the rest. */
  lemma {:induction false} AfterThen(rule: Text, kept: Text, body: Text, rest: Result<seq<Piece>, nat>, output: Text)
    ensures After(rule, [], Then(kept, body, rest)) == Success(output)
       <==> rest.Success? && output == Extended(rule, kept, body, Render(rule, rest.value))
  {
    AfterNothing(rule, Then(kept, body, rest), output);
    if rest.Success? {
      RenderPair(rule, kept, Inserted(body), rest.value);
      var block, text := Shown(rule, Inserted(body)), Render(rule, rest.value);
      assert block == rule + body + Ascii("}\n") by { assert Ascii("}\n") == [CLOSE_BRACE, LINE_FEED]; }
      assert kept + (block + text) == kept + block + text;
    }
  }

  /** The run's result is the only widening of `css`, if it has one. */
  ghost predicate Written(rule: Text, css: Text, copied: Result<seq<Piece>, nat>)
  {
    forall after: Text :: After(rule, [], copied) == Success(after) <==> Widened(rule, css, after)
  }

  lemma {:induction false} TierIsWidened(rule: Text, css: Text, kept: Text, body: Text, tail: Text,
                                         rest: Result<seq<Piece>, nat>)
    requires FirstTier(css, kept, body, tail) == true && Written(rule, tail, rest) == true
    ensures Written(rule, css, Then(kept, body, rest)) == true
  {
    forall more: Text ensures Widened(rule, tail, more) <==> rest.Success? && more == Render(rule, rest.value) {
      AfterNothing(rule, rest, more);
    }
    forall output: Text
      ensures After(rule, [], Then(kept, body, rest)) == Success(output) <==> Widened(rule, css, output)
    {
      WidenedWithTier(rule, css, kept, body, tail, output);
      AfterThen(rule, kept, body, rest, output);
    }
  }

  lemma NothingIsWidened(rule: Text, text: Text)
    requires NoMatch(text, |text| + 1) == true
    ensures Written(rule, text, Success([Kept(text)])) == true
  {
    forall after: Text
      ensures After(rule, [], Success([Kept(text)])) == Success(after) <==> Widened(rule, text, after)
    {
      WidenedWithoutTier(rule, text, after);
      AfterNothing(rule, Success([Kept(text)]), after);
      RenderKept(rule, text);
    }
  }

  lemma {:induction false} UnclosedIsWidened(rule: Text, css: Text, cursor: nat, text: Text, at: nat)
    requires cursor <= |css| && text == css[cursor..] && NextTier(css, cursor).Unclosed?
    ensures Written(rule, text, Failure(at)) == true
  {
    forall after: Text ensures !Widened(rule, text, after) {
      WidenedWithUnclosed(rule, css, cursor, text, after);
    }
  }

  lemma {:induction false} WidenedFrom(rule: Text, css: Text, cursor: nat)
    requires cursor <= |css|
    ensures Written(rule, css[cursor..], Copied(css, cursor)) == true
    decreases |css| - cursor
  {
    var found, text := NextTier(css, cursor), css[cursor..];
    assert Copied(css, cursor) == CopiedFrom(css, cursor, found);
    if found.Tier? {
      var kept, copy, tail := NextIsFirstTier(css, cursor, text, found.body, found.close);
      WidenedFrom(rule, css, found.close);
      TierIsWidened(rule, text, kept, copy, tail, Copied(css, found.close));
    } else if found.NoTier? {
      FirstHeadIsLeftmostMatch(text, 0, 0);
      NothingIsWidened(rule, text);
    } else {
      UnclosedIsWidened(rule, css, cursor, text, found.offset);
    }
  }

  /**
   For every stylesheet: what the copier writes, if it writes anything, is that stylesheet with each of its tiers
   repeated right after itself, and it writes nothing else.
  */
  lemma {:induction false} OutputIsWidened(css: Text, output: Text)
    ensures After(MARKER, [], Copied(css, 0)) == Success(output)
       <==> Widened(Ascii("\n.traycer-phone-layout-only {"), css, output)
  {
    MarkerIsRule();
    WidenedUnder(MARKER, css, output);
  }

  lemma MarkerIsRule()
    ensures MARKER == Ascii("\n.traycer-phone-layout-only {")
  {
  }

  lemma {:induction false} WidenedUnder(rule: Text, css: Text, output: Text)
    ensures After(rule, [], Copied(css, 0)) == Success(output) <==> Widened(rule, css, output)
  {
    WidenedFrom(rule, css, 0);
    assert css[0..] == css;
  }
}

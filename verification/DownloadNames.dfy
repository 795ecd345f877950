/**
 The paths a download may be given (file-save.ts): the suggested name, its numbered variants, and the fallback
 that carries the launch stamp and a serial number. Under one launch the fallback's serial can be read back
 from the path, so it collides with nothing else; that rests on no suggested name spelling the stamp.
*/
module DownloadNames {
  import opened FileNames
  import Sequences

  const MAX_NUMBERED_DOWNLOAD_ATTEMPTS: nat := 20
  const DASH: Character := 0x2d

  /** Base 36, as the launch stamp is written. */
  predicate Base36(c: Character) { Digit(c) || 0x61 <= c <= 0x7a }

  /** A launch stamp: a time in base 36, longer than any attempt number. */
  predicate LaunchStamp(stamp: Name)
  {
    |stamp| >= 3 && forall i :: 0 <= i < |stamp| ==> Base36(stamp[i])
  }

  /** The path of the n-th attempt, under the download directory. */
  function Candidate(name: Name, n: nat): Name
  {
    if n <= 1 then name else WithNameInsert(name, Numbered(n))
  }

  function Serial(stamp: Name, k: nat): Name
  {
    [DASH] + stamp + [DASH] + Decimal(k)
  }

  /** The fallback of serial number k. */
  function Stamped(stamp: Name, name: Name, k: nat): Name
  {
    WithNameInsert(name, Serial(stamp, k))
  }

  predicate OccursAt(text: Name, word: Name, i: nat)
  {
    i + |word| <= |text| && text[i..i + |word|] == word
  }

  /** The stamp is nowhere in the text. */
  ghost predicate Free(stamp: Name, text: Name)
  {
    forall i :: 0 <= i <= |text| ==> !OccursAt(text, stamp, i)
  }

  /** The path reads as some text free of the stamp, the stamp with serial number k, and at most an extension. */
  ghost predicate HasSerial(stamp: Name, path: Name, k: nat)
  {
    exists a: Name, e: Name :: SerialParts(stamp, path, k, a, e)
  }

  ghost predicate SerialParts(stamp: Name, path: Name, k: nat, a: Name, e: Name)
  {
    path == a + Serial(stamp, k) + e && Free(stamp, a) && (e == [] || e[0] == DOT)
  }

  lemma OccursInside(text: Name, from: nat, to: nat, word: Name, i: nat)
    requires from <= to <= |text| && OccursAt(text[from..to], word, i)
    ensures OccursAt(text, word, from + i)
  {
    var inner, outer := text[from..to][i..i + |word|], text[from + i..from + i + |word|];
    assert forall j :: 0 <= j < |inner| ==> inner[j] == outer[j];
  }

  lemma FreePart(stamp: Name, text: Name, from: nat, to: nat)
    requires from <= to <= |text| && Free(stamp, text)
    ensures Free(stamp, text[from..to])
  {
    forall i | 0 <= i <= to - from ensures !OccursAt(text[from..to], stamp, i) {
      if OccursAt(text[from..to], stamp, i) { OccursInside(text, from, to, stamp, i); }
    }
  }

  lemma {:induction false} CutIsFree(stamp: Name, name: Name, budget: nat)
    requires Free(stamp, name)
    ensures Free(stamp, Truncated(Stem(name), budget))
  {
    var cut := Truncated(Stem(name), budget);
    TruncatedIsLongestFit(Stem(name), budget);
    assert cut == name[0..|cut|];
    FreePart(stamp, name, 0, |cut|);
  }

  lemma ExtensionIsFree(stamp: Name, name: Name)
    requires Free(stamp, name)
    ensures Free(stamp, Extension(name)) && (Extension(name) == [] || Extension(name)[0] == DOT)
  {
    var from := if LastDot(name) > 0 then LastDot(name) else |name|;
    FreePart(stamp, name, from, |name|);
    assert Extension(name) == name[from..|name|];
  }

  /** What an insert is put between, in a variant of a name free of the stamp. */
  lemma VariantParts(stamp: Name, name: Name, insert: Name) returns (a: Name, e: Name)
    requires Free(stamp, name)
    ensures WithNameInsert(name, insert) == a + insert + e
    ensures Free(stamp, a) && Free(stamp, e) && (e == [] || e[0] == DOT)
  {
    e := if Utf8Length(insert) + Utf8Length(Extension(name)) <= MAX_FILE_NAME_BYTES then Extension(name) else [];
    var room := MAX_FILE_NAME_BYTES - Utf8Length(insert) - Utf8Length(e);
    var budget: nat := if room < 0 then 0 else room;
    a := Truncated(Stem(name), budget);
    CutIsFree(stamp, name, budget);
    ExtensionIsFree(stamp, name);
    FreePart(stamp, name, 0, 0);
    assert name[0..0] == [];
  }

  lemma StampedHasSerial(stamp: Name, name: Name, k: nat)
    requires Free(stamp, name)
    ensures HasSerial(stamp, Stamped(stamp, name, k), k)
  {
    var a, e := VariantParts(stamp, name, Serial(stamp, k));
    assert SerialParts(stamp, Stamped(stamp, name, k), k, a, e);
  }

  /** What follows the shorter of two beginnings is what the longer one goes on with. */
  lemma GoesOn(p: Name, e: Name, q: Name, f: Name)
    requires p + e == q + f && |p| < |q|
    ensures e != [] && e[0] == q[|p|]
  {
    assert (q + f)[|p|] == q[|p|] && (p + e)[|p|..] == e;
  }

  /** A numeral followed by nothing, or by an extension, ends where its digits do. */
  lemma {:induction false} NumeralEnds(k: nat, e: Name, m: nat, f: Name)
    requires Decimal(k) + e == Decimal(m) + f && (e == [] || e[0] == DOT)
    ensures |Decimal(m)| <= |Decimal(k)|
  {
    DecimalIsDigits(m);
    if |Decimal(k)| < |Decimal(m)| { GoesOn(Decimal(k), e, Decimal(m), f); }
  }

  lemma {:induction false} NumeralIsRead(k: nat, e: Name, m: nat, f: Name)
    requires Decimal(k) + e == Decimal(m) + f && (e == [] || e[0] == DOT) && (f == [] || f[0] == DOT)
    ensures k == m
  {
    NumeralEnds(k, e, m, f);
    NumeralEnds(m, f, k, e);
    assert (Decimal(k) + e)[..|Decimal(k)|] == Decimal(k) && (Decimal(m) + f)[..|Decimal(m)|] == Decimal(m);
    DecimalIsRead([OPEN_PARENTHESIS], k, [OPEN_PARENTHESIS], m);
  }

  /** A stamp found before `b` ends does not reach past it, as it holds no dash. */
  lemma StampBeforeDash(stamp: Name, path: Name, at: nat, b: Name, rest: Name)
    requires LaunchStamp(stamp) && path == b + [DASH] + rest && OccursAt(path, stamp, at) && at <= |b|
    ensures OccursAt(b, stamp, at)
  {
    assert path[|b|] == DASH;
    Misses(stamp, path, at, |b|);
    assert path[..|b|] == b;
    assert b[at..at + |stamp|] == path[at..at + |stamp|];
  }

  lemma OccursBetween(front: Name, word: Name, rest: Name)
    ensures OccursAt(front + word + rest, word, |front|)
  {
    assert (front + word + rest)[|front|..|front| + |word|] == word;
  }

  /** A serial between two texts, cut in each of the places where it is read. */
  lemma SerialSplits(a: Name, dash: Name, stamp: Name, digits: Name, e: Name)
    ensures a + (dash + stamp + dash + digits) + e == a + dash + (stamp + dash + digits + e)
    ensures a + (dash + stamp + dash + digits) + e == (a + dash) + stamp + (dash + digits + e)
    ensures a + (dash + stamp + dash + digits) + e == (a + dash + stamp + dash) + (digits + e)
  {
    Sequences.Associate(a, dash + stamp + dash + digits, e);
    assert a + (dash + stamp + dash + digits) == a + dash + stamp + dash + digits;
  }

  lemma {:induction false} StampIsAt(stamp: Name, path: Name, k: nat, a: Name, e: Name)
    requires SerialParts(stamp, path, k, a, e)
    ensures OccursAt(path, stamp, |a| + 1)
    ensures path == a + [DASH] + (stamp + [DASH] + Decimal(k) + e)
    ensures path[|a| + 2 + |stamp|..] == Decimal(k) + e
  {
    SerialSplits(a, [DASH], stamp, Decimal(k), e);
    OccursBetween(a + [DASH], stamp, [DASH] + Decimal(k) + e);
    var front := a + [DASH] + stamp + [DASH];
    assert (front + (Decimal(k) + e))[|front|..] == Decimal(k) + e;
  }

  lemma NotEarlier(stamp: Name, path: Name, k: nat, a: Name, e: Name, m: nat, b: Name, f: Name)
    requires LaunchStamp(stamp) && SerialParts(stamp, path, k, a, e) && SerialParts(stamp, path, m, b, f)
    ensures |b| <= |a|
  {
    if |a| < |b| {
      StampIsAt(stamp, path, k, a, e);
      StampIsAt(stamp, path, m, b, f);
      StampBeforeDash(stamp, path, |a| + 1, b, stamp + [DASH] + Decimal(m) + f);
    }
  }

  /** A path has at most one serial number. */
  lemma SerialIsUnique(stamp: Name, path: Name, k: nat, m: nat)
    requires LaunchStamp(stamp) && HasSerial(stamp, path, k) && HasSerial(stamp, path, m)
    ensures k == m
  {
    var a: Name, e: Name :| SerialParts(stamp, path, k, a, e);
    var b: Name, f: Name :| SerialParts(stamp, path, m, b, f);
    NotEarlier(stamp, path, k, a, e, m, b, f);
    NotEarlier(stamp, path, m, b, f, k, a, e);
    StampIsAt(stamp, path, k, a, e);
    StampIsAt(stamp, path, m, b, f);
    NumeralIsRead(k, e, m, f);
  }

  /** A plain or numbered path of a name free of the stamp has no serial number. */
  lemma CandidateHasNoSerial(stamp: Name, name: Name, n: nat, k: nat)
    requires LaunchStamp(stamp) && Free(stamp, name) && n <= MAX_NUMBERED_DOWNLOAD_ATTEMPTS
    ensures !HasSerial(stamp, Candidate(name, n), k)
  {
    var path := Candidate(name, n);
    if HasSerial(stamp, path, k) {
      var a: Name, e: Name :| SerialParts(stamp, path, k, a, e);
      StampIsAt(stamp, path, k, a, e);
      CandidateIsFree(stamp, name, n);
    }
  }

  lemma CandidateIsFree(stamp: Name, name: Name, n: nat)
    requires LaunchStamp(stamp) && Free(stamp, name) && n <= MAX_NUMBERED_DOWNLOAD_ATTEMPTS
    ensures Free(stamp, Candidate(name, n))
  {
    if n > 1 {
      var a, e := VariantParts(stamp, name, Numbered(n));
      var path := Candidate(name, n);
      forall i | 0 <= i <= |path| ensures !OccursAt(path, stamp, i) {
        if OccursAt(path, stamp, i) { NotInVariant(stamp, a, n, e, i); }
      }
    }
  }

  lemma {:induction false} ShortNumeral(n: nat)
    requires n < 100
    ensures |Decimal(n)| <= 2
  {
  }

  /** No stamp lies across a numbered insert: it holds no space and no parenthesis, and is longer than the number. */
  lemma NotInVariant(stamp: Name, a: Name, n: nat, e: Name, i: nat)
    requires LaunchStamp(stamp) && n <= MAX_NUMBERED_DOWNLOAD_ATTEMPTS
    requires OccursAt(a + Numbered(n) + e, stamp, i)
    ensures OccursAt(a, stamp, i) || (i >= |a| + |Numbered(n)| && OccursAt(e, stamp, i - |a| - |Numbered(n)|))
  {
    var path := a + Numbered(n) + e;
    var close := |a| + |Numbered(n)| - 1;
    ShortNumeral(n);
    Misses(stamp, path, i, |a|);
    Misses(stamp, path, i, |a| + 1);
    Misses(stamp, path, i, close);
    assert path[|a|] == 0x20 && path[|a| + 1] == OPEN_PARENTHESIS && path[close] == CLOSE_PARENTHESIS;
    if i < |a| {
      assert a[i..i + |stamp|] == path[i..i + |stamp|];
    } else {
      assert path[close + 1..] == e;
      assert e[i - close - 1..i - close - 1 + |stamp|] == path[i..i + |stamp|];
    }
  }

  /** Where a text reads no base-36 character, no stamp lies across. */
  lemma Misses(stamp: Name, path: Name, i: nat, at: nat)
    requires LaunchStamp(stamp) && OccursAt(path, stamp, i) && at < |path|
    ensures Base36(path[at]) || at < i || i + |stamp| <= at
  {
    if i <= at < i + |stamp| {
      assert path[at] == path[i..i + |stamp|][at - i];
    }
  }

  /** Why the names must not spell the stamp: this one's plain path is another's fallback. */
  lemma StampedCanCollide(stamp: Name)
    requires LaunchStamp(stamp) && |stamp| <= 100
    ensures Stamped(stamp, [0x78], 1) == Candidate([0x78] + Serial(stamp, 1), 1)
  {
    var insert := Serial(stamp, 1);
    DecimalIsDigits(1);
    assert LastDot([0x78]) == -1;
    AsciiLength([0x78]);
    AsciiLength([]);
    AsciiLength(insert);
    assert Truncated([0x78], MAX_FILE_NAME_BYTES - Utf8Length(insert)) == [0x78];
  }
}

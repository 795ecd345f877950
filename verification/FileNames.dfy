/**
 Byte-bounded file names (file-save.ts): a path component is bounded in UTF-8 bytes (section 3 of RFC 3629),
 cut between characters, and an insert that makes it unique is never what is cut.

 A name is the sequence of characters that iterating the string yields: code points, and surrogates that stand
 alone, which encode as U+FFFD does.
*/
module FileNames {
  import opened Wrappers

  type Character = c: int | 0 <= c < 0x110000
  type Name = seq<Character>
  type Byte = b: int | 0 <= b < 0x100

  const MAX_FILE_NAME_BYTES: nat := 255
  const DOT: Character := 0x2e

  predicate Surrogate(c: Character) { 0xd800 <= c <= 0xdfff }

  function Utf8(c: Character): (bytes: seq<Byte>)
    ensures 1 <= |bytes| <= 4
  {
    if c < 0x80 then [c]
    else if c < 0x800 then [0xc0 + c / 0x40, 0x80 + c % 0x40]
    else if Surrogate(c) then [0xef, 0xbf, 0xbd]
    else if c < 0x10000 then [0xe0 + c / 0x1000, 0x80 + c / 0x40 % 0x40, 0x80 + c % 0x40]
    else [0xf0 + c / 0x40000, 0x80 + c / 0x1000 % 0x40, 0x80 + c / 0x40 % 0x40, 0x80 + c % 0x40]
  }

  function Encoded(name: Name): seq<Byte>
  {
    if name == [] then [] else Encoded(name[..|name| - 1]) + Utf8(name[|name| - 1])
  }

  function Utf8Length(name: Name): nat
  {
    |Encoded(name)|
  }

  lemma {:induction false} LengthAdds(a: Name, b: Name)
    ensures Utf8Length(a + b) == Utf8Length(a) + Utf8Length(b)
  {
    if b == [] {
      assert a + b == a;
    } else {
      var n := |b| - 1;
      LengthAdds(a, b[..n]);
      assert (a + b)[..|a + b| - 1] == a + b[..n];
    }
  }

  lemma LengthOfPrefix(name: Name, k: nat)
    requires k <= |name|
    ensures k <= Utf8Length(name[..k]) <= Utf8Length(name)
  {
    assert name == name[..k] + name[k..];
    LengthAdds(name[..k], name[k..]);
    AtLeastOneEach(name[..k]);
  }

  lemma LengthGrows(name: Name, j: nat, k: nat)
    requires j <= k <= |name|
    ensures Utf8Length(name[..j]) <= Utf8Length(name[..k])
  {
    LengthOfPrefix(name[..k], j);
    assert name[..k][..j] == name[..j];
  }

  lemma {:induction false} AtLeastOneEach(name: Name)
    ensures |name| <= Utf8Length(name) <= 4 * |name|
  {
    if name != [] { AtLeastOneEach(name[..|name| - 1]); }
  }

  // ------------------------------------------------------ reading it back

  predicate Continues(b: Byte) { 0x80 <= b < 0xc0 }

  datatype Front = Front(character: Character, length: nat)

  function OfTwo(a: int, b: int): int { (a - 0xc0) * 0x40 + (b - 0x80) }

  function OfThree(a: int, b: int, c: int): int { (a - 0xe0) * 0x1000 + (b - 0x80) * 0x40 + (c - 0x80) }

  function OfFour(a: int, b: int, c: int, d: int): int
  {
    (a - 0xf0) * 0x40000 + (b - 0x80) * 0x1000 + (c - 0x80) * 0x40 + (d - 0x80)
  }

  /** A character read from that many bytes, unless it needs fewer or is none. */
  function Sound(c: int, least: nat, length: nat): (front: Option<Front>)
    ensures front.Some? ==> front.value.length == length
  {
    if least <= c < 0x110000 && !(0xd800 <= c <= 0xdfff) then Some(Front(c, length)) else None
  }

  /** The character at the front and how many bytes it takes, by the table of section 3 of RFC 3629. */
  function FrontCharacter(bytes: seq<Byte>): (front: Option<Front>)
    ensures front.Some? ==> 0 < front.value.length <= |bytes|
  {
    if bytes == [] then None
    else if bytes[0] < 0x80 then Some(Front(bytes[0], 1))
    else if 0xc0 <= bytes[0] < 0xe0 && |bytes| >= 2 && Continues(bytes[1]) then
      Sound(OfTwo(bytes[0], bytes[1]), 0x80, 2)
    else if 0xe0 <= bytes[0] < 0xf0 && |bytes| >= 3 && Continues(bytes[1]) && Continues(bytes[2]) then
      Sound(OfThree(bytes[0], bytes[1], bytes[2]), 0x800, 3)
    else if 0xf0 <= bytes[0] < 0xf8 && |bytes| >= 4
            && Continues(bytes[1]) && Continues(bytes[2]) && Continues(bytes[3]) then
      Sound(OfFour(bytes[0], bytes[1], bytes[2], bytes[3]), 0x10000, 4)
    else None
  }

  /** The characters the bytes spell, or `None` where they spell none. */
  function Characters(bytes: seq<Byte>): Option<Name>
    decreases |bytes|
  {
    if bytes == [] then Some([])
    else
      var front := FrontCharacter(bytes);
      if front.None? then None
      else
        var rest := Characters(bytes[front.value.length..]);
        if rest.None? then None else Some([front.value.character] + rest.value)
  }

  /** A surrogate that stands alone is written as U+FFFD. */
  function Replaced(name: Name): (r: Name)
    ensures |r| == |name|
  {
    seq(|name|, i requires 0 <= i < |name| => if Surrogate(name[i]) then 0xfffd else name[i])
  }

  lemma TwoAreRead(c: Character)
    requires 0x80 <= c < 0x800
    ensures OfTwo(0xc0 + c / 0x40, 0x80 + c % 0x40) == c
  {
  }

  lemma ThreeAreRead(c: Character)
    requires c < 0x10000
    ensures OfThree(0xe0 + c / 0x1000, 0x80 + c / 0x40 % 0x40, 0x80 + c % 0x40) == c
  {
    assert c / 0x40 == c / 0x1000 * 0x40 + c / 0x40 % 0x40;
  }

  lemma FourAreRead(c: Character)
    requires 0x10000 <= c
    ensures OfFour(0xf0 + c / 0x40000, 0x80 + c / 0x1000 % 0x40, 0x80 + c / 0x40 % 0x40, 0x80 + c % 0x40) == c
  {
    assert c / 0x1000 == c / 0x40000 * 0x40 + c / 0x1000 % 0x40;
    assert c / 0x40 == c / 0x1000 * 0x40 + c / 0x40 % 0x40;
  }

  lemma Utf8IsRead(c: Character, rest: seq<Byte>)
    ensures FrontCharacter(Utf8(c) + rest) == Some(Front(if Surrogate(c) then 0xfffd else c, |Utf8(c)|))
  {
    var bytes, sign := Utf8(c) + rest, Utf8(c);
    assert bytes[0] == sign[0];
    if c >= 0x80 {
      assert bytes[1] == sign[1];
      if c < 0x800 {
        TwoAreRead(c);
      } else {
        assert bytes[2] == sign[2];
        if c < 0x10000 {
          ThreeAreRead(c);
        } else {
          assert bytes[3] == sign[3];
          FourAreRead(c);
        }
      }
    }
  }

  function Ahead(front: Name, rest: Option<Name>): Option<Name>
  {
    if rest.None? then None else Some(front + rest.value)
  }

  lemma AheadTwice(a: Name, b: Name, rest: Option<Name>)
    ensures Ahead(a, Ahead(b, rest)) == Ahead(a + b, rest)
  {
    if rest.Some? { assert a + (b + rest.value) == a + b + rest.value; }
  }

  lemma {:induction false} OneIsRead(c: Character, rest: seq<Byte>)
    ensures Characters(Utf8(c) + rest) == Ahead(Replaced([c]), Characters(rest))
  {
    Utf8IsRead(c, rest);
    assert (Utf8(c) + rest)[|Utf8(c)|..] == rest;
    assert Replaced([c]) == [if Surrogate(c) then 0xfffd else c];
  }

  lemma {:induction false} EncodedThenIsRead(name: Name, rest: seq<Byte>)
    ensures Characters(Encoded(name) + rest) == Ahead(Replaced(name), Characters(rest))
  {
    if name == [] {
      assert Encoded(name) + rest == rest && Replaced(name) == [];
      if Characters(rest).Some? { assert [] + Characters(rest).value == Characters(rest).value; }
    } else {
      var front, last := name[..|name| - 1], name[|name| - 1];
      assert Encoded(name) + rest == Encoded(front) + (Utf8(last) + rest);
      EncodedThenIsRead(front, Utf8(last) + rest);
      OneIsRead(last, rest);
      assert Replaced(name) == Replaced(front) + Replaced([last]);
      AheadTwice(Replaced(front), Replaced([last]), Characters(rest));
    }
  }

  /** What is encoded reads back, character by character, surrogates that stand alone aside. */
  lemma {:induction false} EncodedIsRead(name: Name)
    ensures Characters(Encoded(name)) == Some(Replaced(name))
  {
    EncodedThenIsRead(name, []);
    assert Encoded(name) + [] == Encoded(name);
    assert Replaced(name) + [] == Replaced(name);
  }

  // -------------------------------------------------------------- the cut

  /** The longest prefix that fits: characters are dropped from the end until it does. */
  function Truncated(value: Name, budget: nat): (kept: Name)
    decreases |value|
  {
    if Utf8Length(value) <= budget || value == [] then value
    else Truncated(value[..|value| - 1], budget)
  }

  lemma {:induction false} TruncatedIsLongestFit(value: Name, budget: nat)
    ensures var kept := Truncated(value, budget);
      && kept <= value && kept == value[..|kept|] && Utf8Length(kept) <= budget
      && forall k :: |kept| < k <= |value| ==> Utf8Length(value[..k]) > budget
  {
    if Utf8Length(value) > budget && value != [] {
      var front := value[..|value| - 1];
      TruncatedIsLongestFit(front, budget);
      forall k | |Truncated(front, budget)| < k <= |value| ensures Utf8Length(value[..k]) > budget {
        if k < |value| { assert front[..k] == value[..k]; } else { assert value[..k] == value; }
      }
    }
  }

  /** Only one prefix fits and cannot be lengthened. */
  lemma {:induction false} FitIsUnique(value: Name, budget: nat, k: nat)
    requires k <= |value| && Utf8Length(value[..k]) <= budget
    requires k < |value| ==> Utf8Length(value[..k + 1]) > budget
    ensures Truncated(value, budget) == value[..k]
  {
    var kept := Truncated(value, budget);
    TruncatedIsLongestFit(value, budget);
    LengthGrows(value, if k < |kept| then k + 1 else |kept|, |kept|);
  }

  method TruncateToBytes(value: Name, budget: nat) returns (kept: Name)
    ensures kept == Truncated(value, budget)
  {
    var used: nat, i: nat := 0, 0;
    kept := [];
    while i < |value|
      invariant i <= |value| && kept == value[..i]
      invariant used == Utf8Length(kept) <= budget
    {
      var size := Utf8Length([value[i]]);
      assert value[..i + 1] == kept + [value[i]];
      LengthAdds(kept, [value[i]]);
      if used + size > budget {
        break;
      }
      used := used + size;
      kept := kept + [value[i]];
      i := i + 1;
    }
    FitIsUnique(value, budget, i);
  }

  // ---------------------------------------------------------- bounded names

  /** Where the last dot is, or -1. */
  function LastDot(name: Name): (dot: int)
    ensures -1 <= dot < |name|
    ensures dot >= 0 ==> name[dot] == DOT
    ensures forall k :: dot < k < |name| ==> name[k] != DOT
  {
    if name == [] then -1
    else if name[|name| - 1] == DOT then |name| - 1
    else LastDot(name[..|name| - 1])
  }

  function Stem(name: Name): Name
  {
    var dot := LastDot(name);
    if dot > 0 then name[..dot] else name
  }

  /** The extension with its dot; none when the only dot leads. */
  function Extension(name: Name): Name
  {
    var dot := LastDot(name);
    if dot > 0 then name[dot..] else []
  }

  function BoundFileNameBytes(name: Name): Name
  {
    if Utf8Length(name) <= MAX_FILE_NAME_BYTES then name
    else
      var extension := Extension(name);
      if Utf8Length(extension) >= MAX_FILE_NAME_BYTES then Truncated(name, MAX_FILE_NAME_BYTES)
      else
        var stem := Truncated(Stem(name), MAX_FILE_NAME_BYTES - Utf8Length(extension));
        if stem == [] then Truncated(name, MAX_FILE_NAME_BYTES) else stem + extension
  }

  function WithNameInsert(name: Name, insert: Name): Name
  {
    var extension := Extension(name);
    var kept := if Utf8Length(insert) + Utf8Length(extension) <= MAX_FILE_NAME_BYTES then extension else [];
    var room := MAX_FILE_NAME_BYTES - Utf8Length(insert) - Utf8Length(kept);
    Truncated(Stem(name), if room < 0 then 0 else room) + insert + kept
  }

  lemma NameIsStemAndExtension(name: Name)
    ensures Stem(name) + Extension(name) == name
    ensures Utf8Length(Stem(name)) + Utf8Length(Extension(name)) == Utf8Length(name)
  {
    LengthAdds(Stem(name), Extension(name));
  }

  lemma {:induction false} KeepsSomething(value: Name, budget: nat)
    requires value != []
    ensures Truncated(value, budget) != [] <==> Utf8Length(value[..1]) <= budget
  {
    var kept := Truncated(value, budget);
    TruncatedIsLongestFit(value, budget);
    if kept != [] { LengthGrows(value, 1, |kept|); }
  }

  /**
   Every bounded name fits the component limit, and a name that fits is left alone. One that does not keeps its
   whole extension, beside the longest cut of its stem that fits, exactly when at least one character of the
   stem fits beside it; otherwise it is the longest fitting prefix of the whole name.
  */
  lemma {:induction false} BoundFits(name: Name)
    ensures Utf8Length(BoundFileNameBytes(name)) <= 255
    ensures Utf8Length(name) <= 255 <==> BoundFileNameBytes(name) == name
    ensures Utf8Length(name) > 255 ==>
      var first, extension := Stem(name)[..1], Extension(name);
      if Utf8Length(first) + Utf8Length(extension) <= 255
      then BoundFileNameBytes(name) == Truncated(Stem(name), 255 - Utf8Length(extension)) + extension
      else BoundFileNameBytes(name) == Truncated(name, 255)
  {
    if Utf8Length(name) > MAX_FILE_NAME_BYTES {
      TruncatedIsLongestFit(name, MAX_FILE_NAME_BYTES);
      LengthOfPrefix(Stem(name), 1);
      if Utf8Length(Extension(name)) < MAX_FILE_NAME_BYTES {
        CutBeside(Stem(name), Extension(name));
      }
    }
  }

  lemma {:induction false} CutBeside(stem: Name, extension: Name)
    requires stem != [] && Utf8Length(extension) < MAX_FILE_NAME_BYTES
    ensures var cut := Truncated(stem, MAX_FILE_NAME_BYTES - Utf8Length(extension));
      && Utf8Length(cut + extension) <= MAX_FILE_NAME_BYTES
      && (cut != [] <==> Utf8Length(stem[..1]) + Utf8Length(extension) <= MAX_FILE_NAME_BYTES)
  {
    var room := MAX_FILE_NAME_BYTES - Utf8Length(extension);
    KeepsSomething(stem, room);
    TruncatedIsLongestFit(stem, room);
    LengthAdds(Truncated(stem, room), extension);
  }

  /** `result` is the first `k` characters of the stem, the insert, and the extension if it fits beside the insert. */
  ghost predicate HoldsInsert(name: Name, insert: Name, result: Name, k: nat)
  {
    var stem, extension := Stem(name), Extension(name);
    var kept := if Utf8Length(insert) + Utf8Length(extension) <= 255 then extension else [];
    && k <= |stem| && result == stem[..k] + insert + kept
    && (k < |stem| ==> Utf8Length(stem[..k + 1] + insert + kept) > 255)
  }

  lemma LengthOfThree(a: Name, b: Name, c: Name)
    ensures Utf8Length(a + b + c) == Utf8Length(a) + Utf8Length(b) + Utf8Length(c)
  {
    LengthAdds(a, b);
    LengthAdds(a + b, c);
  }

  /**
   An insert that fits the limit at all is in the result whole, between the longest cut of the stem that still
   fits and the extension, which is dropped only when it cannot fit beside the insert; and the result fits.
  */
  lemma InsertIsKeptWhole(name: Name, insert: Name)
    requires Utf8Length(insert) <= 255
    ensures Utf8Length(WithNameInsert(name, insert)) <= 255
    ensures exists k: nat :: HoldsInsert(name, insert, WithNameInsert(name, insert), k)
  {
    var stem, extension := Stem(name), Extension(name);
    var kept := if Utf8Length(insert) + Utf8Length(extension) <= 255 then extension else [];
    var k := LongestBeside(stem, insert, kept);
    assert HoldsInsert(name, insert, WithNameInsert(name, insert), k);
  }

  /** How much of a stem fits beside an insert and what is kept of the extension. */
  lemma LongestBeside(stem: Name, insert: Name, kept: Name) returns (k: nat)
    requires Utf8Length(insert) + Utf8Length(kept) <= 255
    ensures k <= |stem| && Truncated(stem, 255 - Utf8Length(insert) - Utf8Length(kept)) == stem[..k]
    ensures Utf8Length(stem[..k] + insert + kept) <= 255
    ensures k < |stem| ==> Utf8Length(stem[..k + 1] + insert + kept) > 255
  {
    var room := 255 - Utf8Length(insert) - Utf8Length(kept);
    k := |Truncated(stem, room)|;
    TruncatedIsLongestFit(stem, room);
    LengthOfThree(stem[..k], insert, kept);
    if k < |stem| { LengthOfThree(stem[..k + 1], insert, kept); }
  }

  // -------------------------------------------------------- numbered names

  predicate Digit(c: Character) { 0x30 <= c <= 0x39 }

  function Decimal(n: nat): (digits: Name)
    ensures |digits| > 0
  {
    if n < 10 then [0x30 + n] else Decimal(n / 10) + [0x30 + n % 10]
  }

  lemma {:induction false} DecimalIsDigits(n: nat)
    ensures forall k :: 0 <= k < |Decimal(n)| ==> Digit(Decimal(n)[k])
  {
    if n >= 10 { DecimalIsDigits(n / 10); }
  }

  const OPEN_PARENTHESIS: Character := 0x28
  const CLOSE_PARENTHESIS: Character := 0x29

  /** The insert of the n-th numbered variant. */
  function Numbered(n: nat): Name
  {
    [0x20, OPEN_PARENTHESIS] + Decimal(n) + [CLOSE_PARENTHESIS]
  }

  function DecimalValue(digits: Name): int
  {
    if digits == [] then 0 else 10 * DecimalValue(digits[..|digits| - 1]) - 0x30 + digits[|digits| - 1]
  }

  lemma {:induction false} DecimalIsValue(n: nat)
    ensures DecimalValue(Decimal(n)) == n && (n > 0 ==> Decimal(n)[0] != 0x30)
  {
    if n >= 10 {
      DecimalIsValue(n / 10);
      assert Decimal(n)[..|Decimal(n)| - 1] == Decimal(n / 10);
    } else {
      assert Decimal(n)[..0] == [];
    }
  }

  /** A variant's insert reads " (n)": the number in decimal digits, without a leading zero. */
  lemma {:induction false} NumberedIsSpelled(n: nat)
    ensures Numbered(n) == [0x20, 0x28] + Decimal(n) + [0x29]
    ensures DecimalValue(Decimal(n)) == n && (n > 0 ==> Decimal(n)[0] != 0x30)
    ensures forall k :: 0 <= k < |Decimal(n)| ==> Digit(Decimal(n)[k])
  {
    DecimalIsValue(n);
    DecimalIsDigits(n);
  }

  /** A decimal numeral after something that does not end in a digit reads back as one number. */
  lemma {:induction false} DecimalIsRead(p: Name, n: nat, q: Name, m: nat)
    requires p != [] && q != [] && !Digit(p[|p| - 1]) && !Digit(q[|q| - 1])
    requires p + Decimal(n) == q + Decimal(m)
    ensures n == m
    decreases n
  {
    var all := p + Decimal(n);
    assert all[|all| - 1] == 0x30 + n % 10 && all[|all| - 1] == 0x30 + m % 10;
    Shorter(p, n);
    Shorter(q, m);
    if n >= 10 && m >= 10 { DecimalIsRead(p, n / 10, q, m / 10); }
  }

  lemma {:induction false} Shorter(p: Name, n: nat)
    requires p != [] && !Digit(p[|p| - 1])
    ensures var all := p + Decimal(n);
      if n < 10 then all[..|all| - 1] == p
      else all[..|all| - 1] == p + Decimal(n / 10) && Digit(all[|all| - 2])
  {
    if n >= 10 {
      var front := Decimal(n / 10);
      DecimalIsDigits(n / 10);
      assert p + Decimal(n) == (p + front) + [0x30 + n % 10];
      assert (p + front)[|p + front| - 1] == front[|front| - 1];
    }
  }

  lemma {:induction false} NumberedIsShort(n: nat)
    ensures Utf8Length(Numbered(n)) == |Decimal(n)| + 3
  {
    DecimalIsDigits(n);
    AsciiLength(Numbered(n));
  }

  lemma {:induction false} AsciiLength(name: Name)
    requires forall k :: 0 <= k < |name| ==> name[k] < 0x80
    ensures Utf8Length(name) == |name|
  {
    if name != [] { AsciiLength(name[..|name| - 1]); }
  }

  /** Two texts that end in the same numbered insert have the same number. */
  lemma NumberIsRead(a: Name, n: nat, b: Name, m: nat)
    requires a + Numbered(n) == b + Numbered(m)
    ensures n == m
  {
    var open := [0x20, OPEN_PARENTHESIS];
    var left, right := a + open + Decimal(n), b + open + Decimal(m);
    assert a + Numbered(n) == left + [CLOSE_PARENTHESIS];
    assert b + Numbered(m) == right + [CLOSE_PARENTHESIS];
    assert (left + [CLOSE_PARENTHESIS])[..|left|] == left;
    assert (right + [CLOSE_PARENTHESIS])[..|right|] == right;
    DecimalIsRead(a + open, n, b + open, m);
  }

  /**
   Different numbers give one name different variants, whatever the name: also where the extension fits beside
   one insert and not beside the other, as long as the name itself fits the limit and neither insert is longer
   than a third of it.
  */
  lemma {:induction false} VariantsDiffer(name: Name, n: nat, m: nat)
    requires Utf8Length(name) <= MAX_FILE_NAME_BYTES && n != m
    requires |Decimal(n)| <= 82 && |Decimal(m)| <= 82
    ensures WithNameInsert(name, Numbered(n)) != WithNameInsert(name, Numbered(m))
  {
    if KeepsExtension(name, n) == KeepsExtension(name, m) {
      SameEnding(name, n, m);
    } else if KeepsExtension(name, n) {
      OneDropped(name, n, m);
    } else {
      OneDropped(name, m, n);
    }
  }

  predicate KeepsExtension(name: Name, n: nat)
  {
    Utf8Length(Numbered(n)) + Utf8Length(Extension(name)) <= MAX_FILE_NAME_BYTES
  }

  /** What the variant of n is made of. */
  lemma VariantOf(name: Name, n: nat) returns (cut: Name, kept: Name)
    requires |Decimal(n)| <= 82
    ensures kept == if KeepsExtension(name, n) then Extension(name) else []
    ensures WithNameInsert(name, Numbered(n)) == cut + Numbered(n) + kept
    ensures Utf8Length(cut) <= Utf8Length(Stem(name))
  {
    NumberedIsShort(n);
    kept := if KeepsExtension(name, n) then Extension(name) else [];
    var room: nat := MAX_FILE_NAME_BYTES - Utf8Length(Numbered(n)) - Utf8Length(kept);
    cut := Truncated(Stem(name), room);
    TruncatedIsLongestFit(Stem(name), room);
    LengthOfPrefix(Stem(name), |cut|);
  }

  lemma SameSuffix(a: Name, b: Name, suffix: Name)
    requires a + suffix == b + suffix
    ensures a == b
  {
    assert |a + suffix| == |b + suffix|;
    assert a == (a + suffix)[..|a|] && b == (b + suffix)[..|b|];
  }

  lemma {:induction false} SameEnding(name: Name, n: nat, m: nat)
    requires n != m && |Decimal(n)| <= 82 && |Decimal(m)| <= 82
    requires KeepsExtension(name, n) <==> KeepsExtension(name, m)
    ensures WithNameInsert(name, Numbered(n)) != WithNameInsert(name, Numbered(m))
  {
    var a, kept := VariantOf(name, n);
    var b, same := VariantOf(name, m);
    if a + Numbered(n) + kept == b + Numbered(m) + kept {
      SameSuffix(a + Numbered(n), b + Numbered(m), kept);
      NumberIsRead(a, n, b, m);
    }
  }

  /** With the extension beside n and not beside m, the variant of m is the shorter one. */
  lemma {:induction false} OneDropped(name: Name, n: nat, m: nat)
    requires Utf8Length(name) <= MAX_FILE_NAME_BYTES && |Decimal(n)| <= 82 && |Decimal(m)| <= 82
    requires KeepsExtension(name, n) && !KeepsExtension(name, m)
    ensures WithNameInsert(name, Numbered(n)) != WithNameInsert(name, Numbered(m))
  {
    NumberedIsShort(n);
    NumberedIsShort(m);
    NameIsStemAndExtension(name);
    var a, kept := VariantOf(name, n);
    var b, none := VariantOf(name, m);
    LengthOfThree(a, Numbered(n), kept);
    LengthOfThree(b, Numbered(m), none);
  }
}

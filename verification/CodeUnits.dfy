/** JavaScript text as UTF-16 code units, and the escapes the ASCII rewrite spells them with (ascii-only-output.ts). */
module CodeUnits {

  type Unit = u: int | 0 <= u < 0x10000
  type Text = seq<Unit>

  const LINE_FEED: Unit := 0x0a
  const CARRIAGE_RETURN: Unit := 0x0d
  const SPACE: Unit := 0x20
  const DOUBLE_QUOTE: Unit := 0x22
  const SLASH: Unit := 0x2f
  const BACKSLASH: Unit := 0x5c
  const OPEN_BRACE: Unit := 0x7b
  const CLOSE_BRACE: Unit := 0x7d

  /** An ASCII literal as code units. */
  function Ascii(s: string): Text
    requires forall i :: 0 <= i < |s| ==> s[i] < 128 as char
  {
    seq(|s|, i requires 0 <= i < |s| => s[i] as int)
  }

  predicate NonAscii(u: Unit) { u >= 0x80 }

  predicate Separator(u: Unit) { u == 0x2028 || u == 0x2029 }

  predicate Terminator(u: Unit) { u == LINE_FEED || u == CARRIAGE_RETURN || Separator(u) }

  predicate PrintableAscii(u: Unit) { 0x20 <= u <= 0x7e }

  /** The units the rewrite has to replace: above U+007F and not a line terminator. */
  predicate Escapable(u: Unit) { NonAscii(u) && !Separator(u) }

  predicate High(u: Unit) { 0xd800 <= u <= 0xdbff }

  predicate Low(u: Unit) { 0xdc00 <= u <= 0xdfff }

  /** The units above U+007F that `\s` matches. */
  predicate Whitespace(u: Unit)
  {
    u == 0xa0 || u == 0x1680 || 0x2000 <= u <= 0x200a || Separator(u)
    || u == 0x202f || u == 0x205f || u == 0x3000 || u == 0xfeff
  }

  function CodePoint(high: Unit, low: Unit): nat
    requires High(high) && Low(low)
  {
    0x10000 + (high - 0xd800) * 0x400 + (low - 0xdc00)
  }

  // ------------------------------------------------------------ hexadecimal

  function HexDigit(n: nat): Unit
    requires n < 16
  {
    if n < 10 then 0x30 + n else 0x61 + n - 10
  }

  predicate IsHexDigit(u: Unit)
  {
    0x30 <= u <= 0x39 || 0x41 <= u <= 0x46 || 0x61 <= u <= 0x66
  }

  function HexDigitValue(u: Unit): (r: nat)
    requires IsHexDigit(u)
    ensures r < 16
  {
    if u <= 0x39 then u - 0x30 else if u <= 0x46 then u - 0x41 + 10 else u - 0x61 + 10
  }

  /** `n.toString(16)` */
  function Hex(n: nat): (r: Text)
    ensures r != [] && AllHex(r)
  {
    if n < 16 then [HexDigit(n)] else Hex(n / 16) + [HexDigit(n % 16)]
  }

  predicate AllHex(t: Text)
  {
    forall i :: 0 <= i < |t| ==> IsHexDigit(t[i])
  }

  function HexValue(t: Text): nat
    requires AllHex(t)
  {
    if t == [] then 0 else 16 * HexValue(t[..|t| - 1]) + HexDigitValue(t[|t| - 1])
  }

  /** `t.padStart(width, "0")` */
  function PadStart(t: Text, width: nat): Text
    decreases width - |t|
  {
    if |t| >= width then t else PadStart([0x30] + t, width)
  }

  function UnicodeEscape(u: Unit): (r: Text)
  {
    [BACKSLASH, 0x75] + PadStart(Hex(u), 4)
  }

  function CodePointEscape(n: nat): Text
  {
    [BACKSLASH, 0x75, OPEN_BRACE] + Hex(n) + [CLOSE_BRACE]
  }

  lemma {:induction false} HexIsItsValue(n: nat)
    ensures HexValue(Hex(n)) == n
  {
    if n >= 16 { HexIsItsValue(n / 16); }
  }

  lemma {:induction false} HexLength(n: nat, width: nat, bound: nat)
    requires width >= 1 && n < bound && bound == Sixteens(width)
    ensures |Hex(n)| <= width
  {
    if n >= 16 { HexLength(n / 16, width - 1, Sixteens(width - 1)); }
  }

  lemma {:induction false} HexValueBound(t: Text)
    requires AllHex(t)
    ensures HexValue(t) < Sixteens(|t|)
  {
    if t != [] { HexValueBound(t[..|t| - 1]); }
  }

  /** The unit that two or four hexadecimal digits spell. */
  function HexUnit(t: Text): (u: Unit)
    requires AllHex(t) && (|t| == 2 || |t| == 4)
    ensures u == HexValue(t)
  {
    HexValueBound(t);
    assert Sixteens(2) == 256 && Sixteens(4) == 256 * Sixteens(2);
    HexValue(t)
  }

  function Sixteens(width: nat): nat
  {
    if width == 0 then 1 else 16 * Sixteens(width - 1)
  }

  lemma {:induction false} LeadingZero(t: Text)
    requires AllHex(t)
    ensures AllHex([0x30] + t) && HexValue([0x30] + t) == HexValue(t)
  {
    var z: Text := [0x30];
    if t == [] {
      assert z + t == z && z[..0] == [];
    } else {
      LeadingZero(t[..|t| - 1]);
      assert (z + t)[..|z + t| - 1] == z + t[..|t| - 1];
    }
  }

  lemma {:induction false} PadStartKeepsValue(t: Text, width: nat)
    requires AllHex(t)
    ensures AllHex(PadStart(t, width)) && HexValue(PadStart(t, width)) == HexValue(t)
    ensures |t| <= width ==> |PadStart(t, width)| == width
    decreases width - |t|
  {
    if |t| < width {
      LeadingZero(t);
      PadStartKeepsValue([0x30] + t, width);
    }
  }

  /** The escape is a backslash, `u` and four hexadecimal digits that spell the unit. */
  lemma UnicodeEscapeSpells(u: Unit)
    ensures var r := UnicodeEscape(u);
      && |r| == 6 && r[0] == BACKSLASH && r[1] == 0x75
      && AllHex(r[2..]) && HexValue(r[2..]) == u
      && forall i :: 0 <= i < |r| ==> PrintableAscii(r[i])
  {
    assert Sixteens(4) == 0x10000 by { assert Sixteens(2) == 256; }
    HexLength(u, 4, 0x10000);
    HexIsItsValue(u);
    PadStartKeepsValue(Hex(u), 4);
    assert UnicodeEscape(u)[2..] == PadStart(Hex(u), 4);
  }

  /** The escape is `\u{`, hexadecimal digits that spell the code point, and `}`. */
  lemma CodePointEscapeSpells(n: nat)
    ensures var r := CodePointEscape(n);
      && |r| >= 5 && r[..3] == [BACKSLASH, 0x75, OPEN_BRACE] && r[|r| - 1] == CLOSE_BRACE
      && AllHex(r[3..|r| - 1]) && HexValue(r[3..|r| - 1]) == n
      && forall i :: 0 <= i < |r| ==> PrintableAscii(r[i])
  {
    HexIsItsValue(n);
    assert CodePointEscape(n)[3..|CodePointEscape(n)| - 1] == Hex(n);
  }
}

/**
 The Base64 VLQ codec of a source map's mappings (section 6 of ECMA-426), over the 32-bit operators the
 code uses (ascii-only-output.ts). A number is a mathematical integer; each bit operator says how it
 reads one, so wrap-around is explicit.
*/
module Vlq {
  import opened Wrappers

  datatype VlqError = BadDigit(digit: char)

  // -------------------------------------------------- 32-bit bit operators

  function ToUint32(x: int): (r: int)
    ensures 0 <= r < 0x1_0000_0000
    ensures 0 <= x < 0x1_0000_0000 ==> r == x
  {
    x % 0x1_0000_0000
  }

  function ToInt32(x: int): int
  {
    var u := ToUint32(x);
    if u < 0x8000_0000 then u else u - 0x1_0000_0000
  }

  function Doubled(x: int, n: nat): int
  {
    if n == 0 then x else 2 * Doubled(x, n - 1)
  }

  /** `x << n`: the count is taken modulo 32 and the result is a signed 32-bit number. */
  function ShiftLeft(x: int, n: nat): int
  {
    ToInt32(Doubled(ToInt32(x), n % 32))
  }

  /** `x >>> 1` and `x >>> 5`: the operand is read as an unsigned 32-bit number. */
  function ShiftRightOne(x: int): int { ToUint32(x) / 2 }
  function ShiftRightFive(x: int): int { ToUint32(x) / 32 }

  /** `x & 1` and `x & 31`: the low bits of the two's complement form. */
  function LowBit(x: int): int { ToUint32(x) % 2 }
  function LowFive(x: int): int { ToUint32(x) % 32 }

  /** `(x & 32) !== 0` */
  predicate HasContinuation(x: int) { ToUint32(x) / 32 % 2 == 1 }

  // -------------------------------------------------------------- alphabet

  /** The digits A-Z, a-z, 0-9, + and /, which stand for 0 to 63. */
  function DigitChar(digit: int): char
    requires 0 <= digit < 64
  {
    if digit < 26 then ('A' as int + digit) as char
    else if digit < 52 then ('a' as int + (digit - 26)) as char
    else if digit < 62 then ('0' as int + (digit - 52)) as char
    else if digit == 62 then '+' else '/'
  }

  function DigitOf(c: char): Option<int>
  {
    if 'A' <= c <= 'Z' then Some(c as int - 'A' as int)
    else if 'a' <= c <= 'z' then Some(c as int - 'a' as int + 26)
    else if '0' <= c <= '9' then Some(c as int - '0' as int + 52)
    else if c == '+' then Some(62)
    else if c == '/' then Some(63)
    else None
  }

  const CAPITALS := "ABCDEFGHIJKLMNOPQRSTUVWXYZ"
  const SMALL := "abcdefghijklmnopqrstuvwxyz"
  const BASE64 := CAPITALS + SMALL + "0123456789" + "+/"

  lemma Capital(digit: nat)
    requires digit < 26
    ensures CAPITALS[digit] == ('A' as int + digit) as char
  {
  }

  lemma Small(digit: nat)
    requires digit < 26
    ensures SMALL[digit] == ('a' as int + digit) as char
  {
  }

  /** The digit and the character stand for each other exactly as the table of 64 characters says. */
  lemma AlphabetIsTable(digit: nat, c: char)
    ensures |BASE64| == 64
    ensures digit < 64 ==> DigitChar(digit) == BASE64[digit]
    ensures DigitOf(c) == Some(digit) <==> digit < 64 && c == BASE64[digit]
  {
    if digit < 64 {
      AlphabetRoundTrip(digit, c);
      if digit < 26 { Capital(digit); } else if digit < 52 { Small(digit - 26); }
    }
  }

  lemma AlphabetRoundTrip(digit: nat, c: char)
    requires digit < 64
    ensures DigitOf(c) == Some(digit) <==> c == DigitChar(digit)
  {
  }

  // -------------------------------------------------------------- decoding

  function Prepend(values: seq<int>, rest: Result<seq<int>, VlqError>): (r: Result<seq<int>, VlqError>)
    ensures values == [] ==> r == rest
  {
    match rest
    case Success(more) => assert [] + more == more; Success(values + more)
    case Failure(error) => Failure(error)
  }

  lemma PrependTwice(a: seq<int>, b: seq<int>, rest: Result<seq<int>, VlqError>)
    ensures Prepend(a, Prepend(b, rest)) == Prepend(a + b, rest)
  {
    if rest.Success? { assert a + (b + rest.value) == a + b + rest.value; }
  }

  /** The number a finished accumulator stands for; JavaScript's -0 is 0. */
  function Signed(value: int): int
  {
    if LowBit(value) == 1 then -ShiftRightOne(value) else ShiftRightOne(value)
  }

  function DecodeFrom(segment: string, value: int, shift: nat): Result<seq<int>, VlqError>
    decreases |segment|
  {
    if segment == "" then Success([])
    else
      match DigitOf(segment[0])
      case None => Failure(BadDigit(segment[0]))
      case Some(digit) =>
        var more := value + ShiftLeft(LowFive(digit), shift);
        if HasContinuation(digit) then DecodeFrom(segment[1..], more, shift + 5)
        else Prepend([Signed(more)], DecodeFrom(segment[1..], 0, 0))
  }

  function Decode(segment: string): Result<seq<int>, VlqError>
  {
    DecodeFrom(segment, 0, 0)
  }

  method DecodeVlqSegment(segment: string) returns (r: Result<seq<int>, VlqError>)
    ensures r == Decode(segment)
  {
    var values: seq<int> := [];
    var value, shift := 0, 0;
    assert segment[0..] == segment;
    for i := 0 to |segment|
      invariant shift >= 0
      invariant Decode(segment) == Prepend(values, DecodeFrom(segment[i..], value, shift))
    {
      var digit := DigitOf(segment[i]);
      if digit.None? {
        return Failure(BadDigit(segment[i]));
      }
      assert segment[i..][1..] == segment[i + 1..];
      PrependTwice(values, [Signed(value + ShiftLeft(LowFive(digit.value), shift))],
                   DecodeFrom(segment[i + 1..], 0, 0));
      value := value + ShiftLeft(LowFive(digit.value), shift);
      if HasContinuation(digit.value) {
        shift := shift + 5;
        continue;
      }
      values := values + [Signed(value)];
      value, shift := 0, 0;
    }
    assert values + [] == values;
    r := Success(values);
  }

  // -------------------------------------------------------------- encoding

  /** The sign goes to the lowest bit. */
  function Folded(signed: int): int
  {
    if signed < 0 then ShiftLeft(-signed, 1) + 1 else ShiftLeft(signed, 1)
  }

  function Digits(value: int): string
    decreases ToUint32(value)
  {
    var digit, rest := LowFive(value), ShiftRightFive(value);
    if rest > 0 then [DigitChar(digit + 32)] + Digits(rest) else [DigitChar(digit)]
  }

  function Encode(values: seq<int>): string
  {
    if values == [] then "" else Encode(values[..|values| - 1]) + Digits(Folded(values[|values| - 1]))
  }

  /** The do-while loop: the digits of one number, appended to the text so far. */
  method AppendDigits(text: string, number: int) returns (out: string)
    ensures out == text + Digits(number)
  {
    out := text;
    var value := number;
    var more := true;
    while more
      invariant text + Digits(number) == if more then out + Digits(value) else out
      decreases more, ToUint32(value)
    {
      var digit := LowFive(value);
      value := ShiftRightFive(value);
      more := value > 0;
      out := out + [DigitChar(if more then digit + 32 else digit)];
    }
  }

  method EncodeVlqSegment(values: seq<int>) returns (out: string)
    ensures out == Encode(values)
  {
    out := "";
    for i := 0 to |values|
      invariant out == Encode(values[..i])
    {
      out := AppendDigits(out, Folded(values[i]));
      assert values[..i + 1][..i] == values[..i];
    }
    assert values[..|values|] == values;
  }

  // ------------------------------------------------------------ round trip

  /** `a` and `b` are the same 32-bit pattern. */
  ghost predicate SameBits(a: int, b: int)
  {
    ToUint32(a) == ToUint32(b)
  }

  lemma Int32KeepsBits(x: int)
    ensures SameBits(ToInt32(x), x)
  {
  }

  lemma SameBitsAdd(a: int, b: int, x: int, y: int)
    requires SameBits(a, b) && SameBits(x, y)
    ensures SameBits(a + x, b + y)
  {
  }

  lemma {:induction false} DoubledSum(x: int, y: int, n: nat)
    ensures Doubled(x + y, n) == Doubled(x, n) + Doubled(y, n)
  {
    if n > 0 { DoubledSum(x, y, n - 1); }
  }

  lemma {:induction false} DoubledIsMonotone(x: int, y: int, n: nat)
    requires x <= y
    ensures Doubled(x, n) <= Doubled(y, n)
  {
    if n > 0 { DoubledIsMonotone(x, y, n - 1); }
  }

  lemma {:induction false} DoubledBound(x: nat, n: nat)
    ensures x <= Doubled(x, n)
  {
    if n > 0 { DoubledBound(x, n - 1); }
  }

  lemma {:induction false} DoubledFive(x: int, n: nat)
    ensures Doubled(x, n + 5) == Doubled(32 * x, n)
  {
    if n > 0 {
      DoubledFive(x, n - 1);
    } else {
      assert Doubled(x, 1) == 2 * x && Doubled(x, 2) == 4 * x;
      assert Doubled(x, 3) == 8 * x && Doubled(x, 4) == 16 * x;
    }
  }

  lemma {:induction false} DoubledOneGrows(n: nat)
    requires n >= 32
    ensures Doubled(1, n) >= 0x1_0000_0000
  {
    if n == 32 {
      DoubledFive(1, 27);
      DoubledFive(32, 22);
      DoubledFive(0x400, 17);
      DoubledFive(0x8000, 12);
      DoubledFive(0x10_0000, 7);
      DoubledFive(0x200_0000, 2);
    } else {
      DoubledOneGrows(n - 1);
    }
  }

  lemma SmallInt32(x: int)
    requires 0 <= x < 0x8000_0000
    ensures ToInt32(x) == x
  {
  }

  lemma {:induction false} ShiftLeftBits(digit: int, shift: nat)
    requires 0 <= digit < 32 && shift < 32
    ensures SameBits(ShiftLeft(digit, shift), Doubled(digit, shift))
  {
    SmallInt32(digit);
    assert shift % 32 == shift;
    assert ShiftLeft(digit, shift) == ToInt32(Doubled(digit, shift));
    Int32KeepsBits(Doubled(digit, shift));
  }

  lemma {:induction false} DecodeOfBits(segment: string, a: int, b: int, shift: nat)
    requires SameBits(a, b)
    ensures DecodeFrom(segment, a, shift) == DecodeFrom(segment, b, shift)
    decreases |segment|
  {
    if segment != "" && DigitOf(segment[0]).Some? {
      var step := ShiftLeft(LowFive(DigitOf(segment[0]).value), shift);
      SameBitsAdd(a, b, step, step);
      DecodeOfBits(segment[1..], a + step, b + step, shift + 5);
    }
  }

  lemma {:induction false} DecodeHead(c: char, digit: int, tail: string, value: int, shift: nat)
    requires DigitOf(c) == Some(digit)
    ensures var more := value + ShiftLeft(LowFive(digit), shift);
      DecodeFrom([c] + tail, value, shift)
      == if HasContinuation(digit) then DecodeFrom(tail, more, shift + 5)
         else Prepend([Signed(more)], DecodeFrom(tail, 0, 0))
  {
    assert ([c] + tail)[1..] == tail;
  }

  lemma DigitParts(digit: nat)
    requires digit < 64
    ensures LowFive(digit) == (if digit >= 32 then digit - 32 else digit) && (HasContinuation(digit) <==> digit >= 32)
  {
  }

  lemma {:induction false} DecodeStep(digit: nat, tail: string, value: int, shift: nat)
    requires digit < 64
    ensures DecodeFrom([DigitChar(digit)] + tail, value, shift)
      == if digit >= 32 then DecodeFrom(tail, value + ShiftLeft(digit - 32, shift), shift + 5)
         else Prepend([Signed(value + ShiftLeft(digit, shift))], DecodeFrom(tail, 0, 0))
  {
    AlphabetRoundTrip(digit, DigitChar(digit));
    DigitParts(digit);
    DecodeHead(DigitChar(digit), digit, tail, value, shift);
  }
  lemma {:induction false} LastDigit(digit: nat, value: int, shift: nat, tail: string)
    requires digit < 32 && shift < 32
    ensures DecodeFrom([DigitChar(digit)] + tail, value, shift)
         == Prepend([Signed(value + Doubled(digit, shift))], DecodeFrom(tail, 0, 0))
  {
    DecodeStep(digit, tail, value, shift);
    ShiftLeftBits(digit, shift);
    SameBitsAdd(value, value, ShiftLeft(digit, shift), Doubled(digit, shift));
  }

  lemma EarlierDigit(digit: nat, value: int, shift: nat, tail: string)
    requires digit < 32 && shift < 32
    ensures DecodeFrom([DigitChar(digit + 32)] + tail, value, shift)
         == DecodeFrom(tail, value + Doubled(digit, shift), shift + 5)
  {
    DecodeStep(digit + 32, tail, value, shift);
    ShiftLeftBits(digit, shift);
    SameBitsAdd(value, value, ShiftLeft(digit, shift), Doubled(digit, shift));
    DecodeOfBits(tail, value + ShiftLeft(digit, shift), value + Doubled(digit, shift), shift + 5);
  }

  /** What the rest of the text decodes to once a number is read. */
  function AfterNumber(number: int, rest: string): Result<seq<int>, VlqError>
  {
    Prepend([Signed(number)], DecodeFrom(rest, 0, 0))
  }

  lemma SplitNumber(number: nat, digit: nat, more: nat, shift: nat)
    requires number == digit + 32 * more && digit < 32 && Doubled(number, shift) < 0x1_0000_0000
    ensures number < 0x1_0000_0000
    ensures Doubled(number, shift) == Doubled(digit, shift) + Doubled(more, shift + 5)
    ensures Doubled(more, shift + 5) < 0x1_0000_0000
    ensures more > 0 ==> shift + 5 < 32
  {
    DoubledBound(number, shift);
    DoubledSum(digit, 32 * more, shift);
    DoubledFive(more, shift);
    DoubledBound(digit, shift);
    if more > 0 && shift + 5 >= 32 {
      DoubledIsMonotone(1, more, shift + 5);
      DoubledOneGrows(shift + 5);
    }
  }

  lemma DigitsStep(number: nat, rest: string) returns (digit: nat, more: nat)
    requires number < 0x1_0000_0000
    ensures number == digit + 32 * more && digit < 32
    ensures Digits(number) + rest
         == if more == 0 then [DigitChar(digit)] + rest else [DigitChar(digit + 32)] + (Digits(more) + rest)
  {
    digit, more := number % 32, number / 32;
    assert LowFive(number) == digit && ShiftRightFive(number) == more;
  }

  /** The lowest digit of a number, written at its place, and what is left. */
  lemma TakeDigit(number: nat, shift: nat, rest: string) returns (digit: nat, more: nat)
    requires Doubled(number, shift) < 0x1_0000_0000
    ensures digit < 32 && Doubled(more, shift + 5) < 0x1_0000_0000 && (more > 0 ==> more < number && shift + 5 < 32)
    ensures Digits(number) + rest
         == if more == 0 then [DigitChar(digit)] + rest else [DigitChar(digit + 32)] + (Digits(more) + rest)
    ensures Doubled(number, shift) == Doubled(digit, shift) + Doubled(more, shift + 5)
    ensures more == 0 ==> Doubled(number, shift) == Doubled(digit, shift)
  {
    DoubledBound(number, shift);
    digit, more := DigitsStep(number, rest);
    SplitNumber(number, digit, more, shift);
  }

  /** The digits of one number add exactly that number, at their place, to the accumulator. */
  lemma {:induction false} DecodeDigits(number: nat, value: int, shift: nat, rest: string)
    requires shift < 32 && Doubled(number, shift) < 0x1_0000_0000
    ensures DecodeFrom(Digits(number) + rest, value, shift) == AfterNumber(value + Doubled(number, shift), rest)
    decreases number
  {
    var digit, more := TakeDigit(number, shift, rest);
    var total := value + Doubled(number, shift);
    if more == 0 {
      LastDigit(digit, value, shift, rest);
      assert DecodeFrom([DigitChar(digit)] + rest, value, shift) == AfterNumber(total, rest);
    } else {
      var tail := Digits(more) + rest;
      DecodeDigits(more, value + Doubled(digit, shift), shift + 5, rest);
      EarlierDigit(digit, value, shift, tail);
      assert DecodeFrom([DigitChar(digit + 32)] + tail, value, shift) == AfterNumber(total, rest);
    }
  }

  /** What 32 bits can hold of a number: 31 bits of magnitude, and the sign. */
  function Wrapped(v: int): int
  {
    if v < 0 then -(-v % 0x8000_0000) else v % 0x8000_0000
  }

  lemma ShiftLeftOneBits(v: nat)
    ensures SameBits(ShiftLeft(v, 1), v + v)
  {
    var x := ToInt32(v);
    assert Doubled(x, 1) == x + x;
    Int32KeepsBits(x + x);
    Int32KeepsBits(v);
    SameBitsAdd(x, v, x, v);
  }

  lemma TwiceModulo(v: nat)
    ensures ToUint32(v + v) == 2 * (v % 0x8000_0000)
    ensures ToUint32(v + v + 1) == 2 * (v % 0x8000_0000) + 1
  {
  }

  lemma FoldedBits(v: nat)
    ensures ToUint32(ShiftLeft(v, 1)) == 2 * (v % 0x8000_0000)
    ensures ToUint32(ShiftLeft(v, 1) + 1) == 2 * (v % 0x8000_0000) + 1
  {
    ShiftLeftOneBits(v);
    TwiceModulo(v);
    SameBitsAdd(ShiftLeft(v, 1), v + v, 1, 1);
  }

  lemma FoldedRoundTrip(v: int)
    ensures Signed(ToUint32(Folded(v))) == Wrapped(v)
  {
    FoldedBits(if v < 0 then -v else v);
  }

  lemma {:induction false} DigitsOfBits(a: int)
    ensures Digits(a) == Digits(ToUint32(a))
  {
  }

  function WrappedAll(values: seq<int>): seq<int>
  {
    if values == [] then [] else WrappedAll(values[..|values| - 1]) + [Wrapped(values[|values| - 1])]
  }

  lemma OneNumber(v: int, rest: string)
    ensures Decode(Digits(Folded(v)) + rest) == Prepend([Wrapped(v)], Decode(rest))
  {
    var bits := ToUint32(Folded(v));
    DigitsOfBits(Folded(v));
    DecodeDigits(bits, 0, 0, rest);
    FoldedRoundTrip(v);
  }

  /** Decoding an encoding, whatever text follows: encodings concatenate, and lose only what 32 bits cannot hold. */
  lemma {:induction false} RoundTrip(values: seq<int>, rest: string)
    ensures Decode(Encode(values) + rest) == Prepend(WrappedAll(values), Decode(rest))
  {
    if values == [] {
      assert Encode(values) + rest == rest;
    } else {
      var n := |values| - 1;
      var last := Digits(Folded(values[n]));
      assert Encode(values) + rest == Encode(values[..n]) + (last + rest);
      RoundTrip(values[..n], last + rest);
      OneNumber(values[n], rest);
      PrependTwice(WrappedAll(values[..n]), [Wrapped(values[n])], Decode(rest));
    }
  }

  predicate Fits(v: int) { -0x8000_0000 < v < 0x8000_0000 }

  ghost predicate InRange(values: seq<int>)
  {
    forall i :: 0 <= i < |values| ==> Fits(values[i])
  }

  lemma WrappedFits(v: int)
    ensures Fits(Wrapped(v)) && (Wrapped(v) == v <==> Fits(v))
  {
  }

  lemma InRangeAppend(values: seq<int>, v: int)
    ensures InRange(values + [v]) <==> InRange(values) && Fits(v)
  {
    assert (values + [v])[|values|] == v;
    assert forall i :: 0 <= i < |values| ==> (values + [v])[i] == values[i];
  }

  lemma AppendsEqual<T>(a: seq<T>, x: T, b: seq<T>, y: T)
    requires |a| == |b|
    ensures a + [x] == b + [y] <==> a == b && x == y
  {
    assert (a + [x])[..|a|] == a && (b + [y])[..|b|] == b;
    assert (a + [x])[|a|] == x && (b + [y])[|b|] == y;
  }

  lemma {:induction false} WrappedInRange(values: seq<int>)
    ensures |WrappedAll(values)| == |values|
    ensures InRange(WrappedAll(values))
    ensures WrappedAll(values) == values <==> InRange(values)
  {
    if values != [] {
      var front, last := values[..|values| - 1], values[|values| - 1];
      assert values == front + [last];
      WrappedInRange(front);
      WrappedFits(last);
      InRangeAppend(front, last);
      InRangeAppend(WrappedAll(front), Wrapped(last));
      AppendsEqual(WrappedAll(front), Wrapped(last), front, last);
    }
  }

  /** The codec loses nothing exactly when every magnitude is below 2^31. */
  lemma {:induction false} RoundTripIffInRange(values: seq<int>)
    ensures Decode(Encode(values)) == Success(values) <==> InRange(values)
  {
    RoundTrip(values, "");
    assert Encode(values) + "" == Encode(values);
    assert Decode("") == Success([]);
    assert WrappedAll(values) + [] == WrappedAll(values);
    WrappedInRange(values);
  }

  /** Every number a segment decodes to has a magnitude below 2^31, so re-encoding it is safe. */
  lemma {:induction false} DecodedInRange(segment: string, value: int, shift: nat)
    ensures var r := DecodeFrom(segment, value, shift); r.Success? ==> InRange(r.value)
    decreases |segment|
  {
    if segment != "" && DigitOf(segment[0]).Some? {
      var more := value + ShiftLeft(LowFive(DigitOf(segment[0]).value), shift);
      DecodedInRange(segment[1..], more, shift + 5);
      DecodedInRange(segment[1..], 0, 0);
    }
  }

  // ------------------------------------------------------------ the format

  /** The number a text spells: five bits a digit, the lowest first. */
  function Places(text: string): int
  {
    if text == "" then 0
    else (if DigitOf(text[0]).Some? then DigitOf(text[0]).value % 32 else 0) + 32 * Places(text[1..])
  }

  /** Every digit but the last has its sixth bit set, and the last one is not a needless zero. */
  ghost predicate OneNumeral(text: string)
  {
    && text != ""
    && (forall i :: 0 <= i < |text| ==>
          DigitOf(text[i]).Some? && (DigitOf(text[i]).value >= 32 <==> i < |text| - 1))
    && (|text| > 1 ==> DigitOf(text[|text| - 1]).value > 0)
  }

  lemma {:induction false} LongerNumeral(digit: nat, text: string)
    requires digit < 32 && OneNumeral(text) && Places(text) > 0
    ensures OneNumeral([DigitChar(digit + 32)] + text)
    ensures Places([DigitChar(digit + 32)] + text) == digit + 32 * Places(text)
  {
    var all := [DigitChar(digit + 32)] + text;
    AlphabetRoundTrip(digit + 32, DigitChar(digit + 32));
    assert all[1..] == text && all[|all| - 1] == text[|text| - 1];
    assert forall i :: 1 <= i < |all| ==> all[i] == text[i - 1];
    if |text| == 1 { assert text[1..] == ""; }
  }

  lemma {:induction false} DigitsSpell(number: nat)
    requires number < 0x1_0000_0000
    ensures OneNumeral(Digits(number)) && Places(Digits(number)) == number
    decreases number
  {
    var digit, more := DigitsStep(number, "");
    assert Digits(number) + "" == Digits(number) && Digits(more) + "" == Digits(more);
    if more == 0 {
      AlphabetRoundTrip(digit, DigitChar(digit));
      assert Digits(number) == [DigitChar(digit)] && [DigitChar(digit)][1..] == "";
    } else {
      DigitsSpell(more);
      LongerNumeral(digit, Digits(more));
    }
  }

  lemma FoldedInRange(v: int)
    requires Fits(v)
    ensures ToUint32(Folded(v)) == if v < 0 then 2 * -v + 1 else 2 * v
  {
    ShiftLeftOneBits(if v < 0 then -v else v);
  }

  lemma EncodeOne(v: int)
    ensures Encode([v]) == Digits(Folded(v))
  {
    assert [v][..0] == [];
  }

  /**
   The format itself: a number in range is spelled as twice its magnitude, plus one if it is negative, in digits of
   five bits, the lowest first, each but the last marked as continued, and with none to spare.
  */
  lemma NumberIsSpelled(v: int)
    requires Fits(v)
    ensures OneNumeral(Encode([v]))
    ensures Places(Encode([v])) == if v < 0 then 2 * -v + 1 else 2 * v
  {
    EncodeOne(v);
    FoldedInRange(v);
    DigitsOfBits(Folded(v));
    DigitsSpell(ToUint32(Folded(v)));
  }
}

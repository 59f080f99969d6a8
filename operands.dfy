/**
 * The operand text the handler builds for the assembler.
 *
 * The receiver slot is written two ways: `"[esp + 0x" + offset.ToString("X") + "]"`
 * (hexadecimal, Callvirt.cs lines 66, 90, 97) and `"[esp + " + offset + "]"` (decimal,
 * lines 123, 144, 154). The method identifier is pushed as `"0" + id.ToString("X") + "h"`
 * (line 99). Both formatters work on a 32-bit signed integer: `ToString("X")` prints a
 * negative value as its two's complement, `ToString()` prints a minus sign.
 */
module Operands {
  import opened Wrappers

  /** 2^32: the modulus of a 32-bit machine word and of x86 address arithmetic. */
  const Word: int := 0x1_0000_0000

  /** The digit for `d` in hexadecimal, upper case (the "X" format); also the decimal digits. */
  function Digit(d: nat): (c: char)
    requires d < 16
  {
    if d < 10 then ('0' as int + d) as char else ('A' as int + d - 10) as char
  }

  /** The value of one upper-case hexadecimal or decimal digit character. */
  function DigitValue(c: char): Option<nat>
  {
    if '0' <= c <= '9' then Some(c as int - '0' as int)
    else if 'A' <= c <= 'F' then Some(c as int - 'A' as int + 10)
    else None
  }

  /** The two radixes the source prints in. */
  datatype Radix = Decimal | Hexadecimal

  function Base(radix: Radix): nat
  {
    match radix
    case Decimal => 10
    case Hexadecimal => 16
  }

  /** `n` written in `radix`, most significant digit first, without leading zeros. */
  function Digits(n: nat, radix: Radix): (s: string)
    ensures |s| > 0
    ensures forall i :: 0 <= i < |s| ==> DigitValue(s[i]).Some? && DigitValue(s[i]).value < Base(radix)
    decreases n
  {
    var base := Base(radix);
    if n < base then [Digit(n)] else Digits(n / base, radix) + [Digit(n % base)]
  }

  /** Reads a non-empty string of digits of `base`; None on any other character. */
  function ParseDigits(s: string, radix: Radix): Option<nat>
    decreases |s|
  {
    var base := Base(radix);
    if |s| == 0 then None
    else
      var last := DigitValue(s[|s| - 1]);
      if last.None? || last.value >= base then None
      else if |s| == 1 then Some(last.value)
      else
        match ParseDigits(s[..|s| - 1], radix)
        case None => None
        case Some(high) => Some(high * base + last.value)
  }

  /** Reads an optionally negative decimal number, the inverse of FormatD. */
  function ParseSigned(s: string): Option<int>
  {
    if |s| > 0 && s[0] == '-' then
      match ParseDigits(s[1..], Decimal)
      case None => None
      case Some(m) => Some(0 - m)
    else
      match ParseDigits(s, Decimal)
      case None => None
      case Some(m) => Some(m)
  }

  /** `n.ToString("X")` for a 32-bit signed `n`: a negative value prints as its two's complement. */
  function FormatX(n: int): string
  {
    Digits(n % Word, Hexadecimal)
  }

  /** `n.ToString()` for a 32-bit signed `n`. */
  function FormatD(n: int): string
  {
    if n < 0 then "-" + Digits(-n, Decimal) else Digits(n, Decimal)
  }

  const SlotPrefix: string := "[esp + "

  /** The receiver slot as written at Callvirt.cs lines 66, 90 and 97. */
  function HexSlot(offset: int): string
  {
    SlotPrefix + "0x" + FormatX(offset) + "]"
  }

  /** The receiver slot as written at Callvirt.cs lines 144 and 154 (line 123 passes `offset + 4`). */
  function DecSlot(offset: int): string
  {
    SlotPrefix + FormatD(offset) + "]"
  }

  /** The displacement an assembler reads from an `[esp + d]` operand in either of the two forms. */
  function SlotDisplacement(text: string): Option<int>
  {
    if |text| < |SlotPrefix| + 1 || text[..|SlotPrefix|] != SlotPrefix || text[|text| - 1] != ']' then None
    else
      var body := text[|SlotPrefix|..|text| - 1];
      if |body| >= 2 && body[..2] == "0x" then
        match ParseDigits(body[2..], Hexadecimal)
        case None => None
        case Some(v) => Some(v)
      else ParseSigned(body)
  }

  /** The method identifier operand of line 99: a leading 0 and a trailing `h` around the hex digits. */
  function MethodIdOperand(id: int): string
  {
    "0" + FormatX(id) + "h"
  }

  /** Reads an assembler immediate of the form `<hex digits>h`. */
  function ParseHexImmediate(text: string): Option<nat>
  {
    if |text| < 2 || text[|text| - 1] != 'h' then None
    else ParseDigits(text[..|text| - 1], Hexadecimal)
  }

  /** Writing a number in a base and reading it back gives the number. */
  lemma {:induction false} DigitsRoundTrip(n: nat, radix: Radix)
    ensures ParseDigits(Digits(n, radix), radix) == Some(n)
    decreases n
  {
    var base := Base(radix);
    if n >= base {
      var s := Digits(n, radix);
      DigitsRoundTrip(n / base, radix);
      assert s[..|s| - 1] == Digits(n / base, radix);
      assert s[|s| - 1] == Digit(n % base);
    }
  }

  /** A leading zero digit does not change the value read. */
  lemma {:induction false} LeadingZero(s: string, radix: Radix)
    requires |s| > 0
    ensures ParseDigits("0" + s, radix) == ParseDigits(s, radix)
    decreases |s|
  {
    var z := "0" + s;
    assert z[|z| - 1] == s[|s| - 1];
    if |s| == 1 {
      assert z[..|z| - 1] == "0";
    } else {
      assert z[..|z| - 1] == "0" + s[..|s| - 1];
      LeadingZero(s[..|s| - 1], radix);
    }
  }

  /** The hexadecimal spelling reads back as the offset's 32-bit two's complement pattern. */
  lemma HexSlotDisplacement(offset: int)
    ensures SlotDisplacement(HexSlot(offset)) == Some(offset % Word)
  {
    var hex := FormatX(offset);
    var h := HexSlot(offset);
    assert h[..|SlotPrefix|] == SlotPrefix;
    assert h[|SlotPrefix|..|h| - 1] == "0x" + hex;
    assert ("0x" + hex)[..2] == "0x" && ("0x" + hex)[2..] == hex;
    DigitsRoundTrip(offset % Word, Hexadecimal);
  }

  /** A decimal rendering reads back as the number and never looks like a hexadecimal one. */
  lemma FormatDRoundTrip(n: int)
    ensures ParseSigned(FormatD(n)) == Some(n)
    ensures !(|FormatD(n)| >= 2 && FormatD(n)[..2] == "0x")
  {
    var dec := FormatD(n);
    if n < 0 {
      var digits := Digits(-n, Decimal);
      DigitsRoundTrip(-n, Decimal);
      assert dec[1..] == digits;
      assert dec[1] == digits[0] && DigitValue(digits[0]).Some?;
    } else {
      DigitsRoundTrip(n, Decimal);
      if |dec| >= 2 {
        assert DigitValue(dec[0]).Some? && DigitValue(dec[1]).Some?;
      }
    }
  }

  /** The decimal spelling reads back as the offset itself, sign included. */
  lemma DecSlotDisplacement(offset: int)
    ensures SlotDisplacement(DecSlot(offset)) == Some(offset)
  {
    var d := DecSlot(offset);
    assert d[..|SlotPrefix|] == SlotPrefix;
    assert d[|SlotPrefix|..|d| - 1] == FormatD(offset);
    FormatDRoundTrip(offset);
  }

  /** Both spellings of the receiver slot name the same 32-bit address: the hexadecimal one carries
      the two's complement of a negative offset, which x86 address arithmetic wraps back to it. */
  lemma SlotFormsAgree(offset: int)
    ensures SlotDisplacement(HexSlot(offset)).Some? && SlotDisplacement(DecSlot(offset)).Some?
    ensures SlotDisplacement(HexSlot(offset)).value % Word == SlotDisplacement(DecSlot(offset)).value % Word
  {
    HexSlotDisplacement(offset);
    DecSlotDisplacement(offset);
    SameWord(SlotDisplacement(HexSlot(offset)), SlotDisplacement(DecSlot(offset)), offset);
  }

  lemma SameWord(hex: Option<int>, dec: Option<int>, offset: int)
    requires hex == Some(offset % Word) && dec == Some(offset)
    ensures hex.value % Word == dec.value % Word
  {
  }

  /** The pushed method identifier reads back as the identifier modulo 2^32 (its 32-bit pattern),
      and as the identifier itself when it is a non-negative 32-bit value. */
  lemma MethodIdRoundTrip(id: int)
    ensures ParseHexImmediate(MethodIdOperand(id)) == Some(id % Word)
    ensures 0 <= id < Word ==> ParseHexImmediate(MethodIdOperand(id)) == Some(id)
  {
    var text := MethodIdOperand(id);
    assert text[..|text| - 1] == "0" + FormatX(id);
    LeadingZero(FormatX(id), Hexadecimal);
    DigitsRoundTrip(id % Word, Hexadecimal);
  }
}

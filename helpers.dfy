/** The emulator's utility functions: 8-bit two's-complement conversion,
    clamping, number parsing, range checks, the flag string, the cycle
    table, and the ring buffer that keeps the execution history. */
module Helpers {
  import opened Common
  import Registers
  import Memory
  import Alu
  import Decoder

  // ---------------------------------------------------------------------
  // Two's complement and clamping
  // ---------------------------------------------------------------------

  /** `twoComplement8bit`: the 8-bit pattern of a signed value; a negative
      value is first moved up by 256, then masked. */
  function TwoComplement(value: int): (r: byte)
    ensures r == value % 256
  {
    if value < 0 then (256 + value) % 256 else value % 256
  }

  /** `fromTwoComplement8bit`: a value whose bit 7 is set stands for
      `value - 256`. */
  function FromTwoComplement(value: int): (r: int)
    ensures r % 256 == value % 256
    ensures 0 <= value < 256 ==> -128 <= r < 128
  {
    assert Pow2(7) == 128;
    if Bit(value, 7) == 1 then value - 256 else value
  }

  /** Every signed byte survives the trip to its pattern and back. */
  lemma SignedRoundTrip(v: int)
    requires -128 <= v < 128
    ensures FromTwoComplement(TwoComplement(v)) == v
  {
    assert Pow2(7) == 128;
  }

  /** Every pattern survives the trip to its signed value and back. */
  lemma PatternRoundTrip(b: byte)
    ensures TwoComplement(FromTwoComplement(b)) == b
  {
  }

  /** A pattern is negative exactly when its bit 7 is set. */
  lemma NegativeIffBit7(b: byte)
    ensures FromTwoComplement(b) < 0 <==> b >= 128
  {
    assert Pow2(7) == 128;
  }

  function Min(a: int, b: int): int { if a <= b then a else b }
  function Max(a: int, b: int): int { if a >= b then a else b }

  /** `clamp8bit`: `max(0, min(255, value))`. */
  function Clamp(value: int): (r: byte)
    ensures 0 <= value < 256 ==> r == value
    ensures value < 0 ==> r == 0
    ensures value > 255 ==> r == 255
  {
    Max(0, Min(255, value))
  }

  // ---------------------------------------------------------------------
  // Range checks and the flag string
  // ---------------------------------------------------------------------

  /** `validateRegisterCode`: exactly the codes the register file maps to
      a register. */
  function ValidRegisterCode(regCode: int): (r: bool)
    ensures r <==> Registers.RegOf(regCode).Some?
  {
    0 <= regCode <= 3
  }

  /** The default `maxAddress` of `validateAddress`. */
  const DefaultMaxAddress := 2047

  /** `validateAddress`: an inclusive range check. */
  function ValidAddress(address: int, maxAddress: int): bool
  {
    0 <= address <= maxAddress
  }

  /** With its default bound, `validateAddress` accepts exactly the ROM's
      addresses. */
  lemma DefaultBoundIsRom(address: int)
    ensures ValidAddress(address, DefaultMaxAddress) <==> 0 <= address < Memory.ROM_SIZE
  {
  }

  /** `formatFlags`: 'Z', 'C', 'N' for a set flag, '-' for a clear or
      missing one. */
  function FormatFlags(flags: map<string, bool>): (r: string)
    ensures |r| == 3
    ensures r[0] == (if Get(flags, "zero", false) then 'Z' else '-')
    ensures r[1] == (if Get(flags, "carry", false) then 'C' else '-')
    ensures r[2] == (if Get(flags, "negative", false) then 'N' else '-')
  {
    var z := if Get(flags, "zero", false) then "Z" else "-";
    var c := if Get(flags, "carry", false) then "C" else "-";
    var n := if Get(flags, "negative", false) then "N" else "-";
    z + c + n
  }

  /** The ALU's flag dictionary. */
  function FlagsDict(f: Alu.Flags): map<string, bool>
  {
    map["zero" := f.zero, "carry" := f.carry, "negative" := f.negative]
  }

  /** On the ALU's flags the string shows each flag in its place; an empty
      dictionary shows "---". */
  lemma FormatAluFlags(f: Alu.Flags)
    ensures FormatFlags(FlagsDict(f)) ==
      [if f.zero then 'Z' else '-', if f.carry then 'C' else '-', if f.negative then 'N' else '-']
    ensures FormatFlags(map[]) == "---"
  {
    var s := FormatFlags(FlagsDict(f));
    assert s[0] == (if f.zero then 'Z' else '-');
    assert s[1] == (if f.carry then 'C' else '-');
  }

  // ---------------------------------------------------------------------
  // Cycle table
  // ---------------------------------------------------------------------

  /** `cycleMap` of `instructionCycles`. */
  const CycleMap: map<string, nat> := map[
    "NOP" := 1, "HLT" := 1, "OUT" := 2, "RST" := 1,
    "ADD" := 3, "SUB" := 3, "AND" := 3, "OR" := 3, "XOR" := 3, "CMP" := 3,
    "INC" := 2, "DEC" := 2, "NOT" := 2,
    "MOV" := 2, "LDI" := 3, "LDM" := 4, "SAV" := 4, "CMI" := 3,
    "JMP" := 3, "JMZ" := 3, "JNZ" := 3, "JMC" := 3, "JME" := 3, "JNG" := 3, "JML" := 3]

  /** `instructionCycles`: the table's count, 1 for a name not in it. */
  function InstructionCycles(opcode: string): (r: nat)
    ensures 1 <= r <= 4
    ensures opcode !in CycleMap ==> r == 1
  {
    Get(CycleMap, opcode, 1)
  }

  /** The decoder's name for each mnemonic. */
  function Name(m: Decoder.Mnemonic): string
  {
    match m
    case NOP => "NOP" case OUT => "OUT" case HLT => "HLT" case RST => "RST"
    case ADD => "ADD" case SUB => "SUB" case MOV => "MOV" case AND => "AND"
    case OR => "OR" case XOR => "XOR" case CMP => "CMP"
    case INC => "INC" case DEC => "DEC" case LDI => "LDI" case LDM => "LDM"
    case SAV => "SAV" case NOT => "NOT" case CMI => "CMI"
    case JMP => "JMP" case JMZ => "JMZ" case JNZ => "JNZ" case JMC => "JMC"
    case JME => "JME" case JNG => "JNG" case JML => "JML"
    case UNKNOWN => "UNKNOWN"
  }

  /** The table has an entry for every mnemonic the decoder produces except
      UNKNOWN. */
  lemma CyclesCoverDecoder(m: Decoder.Mnemonic)
    ensures Name(m) in CycleMap <==> m != Decoder.UNKNOWN
  {
    if m == Decoder.UNKNOWN {
      assert |Name(m)| == 7;
    }
  }

  /** Every jump costs 3 cycles. */
  lemma JumpCycles(m: Decoder.Mnemonic)
    requires Decoder.IsJump(m)
    ensures InstructionCycles(Name(m)) == 3
  {
  }

  /** Only the memory transfers cost 4 cycles. */
  lemma MemoryTransferCycles(m: Decoder.Mnemonic)
    ensures InstructionCycles(Name(m)) == 4 <==> m == Decoder.LDM || m == Decoder.SAV
  {
    if m == Decoder.UNKNOWN {
      CyclesCoverDecoder(m);
    }
  }

  // ---------------------------------------------------------------------
  // Number parsing
  // ---------------------------------------------------------------------

  /** The value of a digit of Python's `int()`: 0-9, then A-Z (either
      case) for 10-35. */
  function DigitValue(c: char): Option<nat>
  {
    if '0' <= c <= '9' then Some(c as int - '0' as int)
    else if 'A' <= c <= 'Z' then Some(c as int - 'A' as int + 10)
    else if 'a' <= c <= 'z' then Some(c as int - 'a' as int + 10)
    else None
  }

  /** The value of a string of digits of the base, most significant
      first; None if some character is not such a digit. */
  function NumeralValue(ds: string, base: nat): Option<nat>
    decreases |ds|
  {
    if ds == [] then Some(0)
    else
      match NumeralValue(ds[..|ds| - 1], base)
      case None => None
      case Some(high) =>
        match DigitValue(ds[|ds| - 1])
        case Some(d) => if d < base then Some(high * base + d) else None
        case None => None
  }

  /** Digits grouped by single underscores, as `int()` accepts them. */
  predicate Grouped(s: string)
  {
    && |s| > 0 && s[0] != '_' && s[|s| - 1] != '_'
    && forall i :: 0 <= i < |s| - 1 ==> !(s[i] == '_' && s[i + 1] == '_')
  }

  function WithoutUnderscores(s: string): (r: string)
    ensures '_' !in r
  {
    if s == [] then [] else (if s[0] == '_' then [] else [s[0]]) + WithoutUnderscores(s[1..])
  }

  /** After a "0x"/"0b" prefix that matches the base, `int()` skips the
      prefix and one underscore. */
  function SkipBasePrefix(u: string, base: nat): string
  {
    if (base == 16 || base == 2) && |u| >= 2 && u[0] == '0'
       && (if base == 16 then u[1] == 'X' || u[1] == 'x' else u[1] == 'B' || u[1] == 'b')
    then
      var rest := u[2..];
      if |rest| > 0 && rest[0] == '_' then rest[1..] else rest
    else u
  }

  /** What `int()` accepts after the sign: for bases 2 and 16 an
      optional prefix, then digits grouped by underscores. */
  function ParseUnsigned(u: string, base: nat): Option<nat>
  {
    var digits := SkipBasePrefix(u, base);
    if Grouped(digits) then NumeralValue(WithoutUnderscores(digits), base) else None
  }

  /** An optional sign in front of the unsigned part. */
  function ParseSigned(t: string, base: nat): Option<int>
  {
    if |t| > 0 && t[0] == '-' then
      match ParseUnsigned(t[1..], base)
      case Some(v) => Some(-(v as int))
      case None => None
    else if |t| > 0 && t[0] == '+' then
      match ParseUnsigned(t[1..], base)
      case Some(v) => Some(v as int)
      case None => None
    else
      match ParseUnsigned(t, base)
      case Some(v) => Some(v as int)
      case None => None
  }

  /** Python's `int(s, base)` for bases 2, 10 and 16: surrounding white
      space, an optional sign, for bases 2 and 16 an optional prefix, then
      digits grouped by underscores. None where `int()` raises ValueError. */
  function ParseInt(s: string, base: nat): Option<int>
  {
    ParseSigned(Strip(s), base)
  }

  /** `parseNumber`: strip and upper-case, then read the number. Malformed
      text gives (0, False). */
  function ParseNumber(text: string): (r: (int, bool))
    ensures !r.1 ==> r.0 == 0
  {
    ReadNumber(Upper(Strip(text)))
  }

  /** The base is chosen by the prefix of the cleaned text: "0X" and "$"
      hex, "0B" and "%" binary, otherwise decimal. */
  function ReadNumber(t: string): (r: (int, bool))
    ensures !r.1 ==> r.0 == 0
  {
    var parsed :=
      if IsPrefix("0X", t) then ParseInt(t, 16)
      else if IsPrefix("0B", t) then ParseInt(t, 2)
      else if IsPrefix("$", t) then ParseInt(t[1..], 16)
      else if IsPrefix("%", t) then ParseInt(t[1..], 2)
      else ParseInt(t, 10);
    match parsed
    case Some(v) => (v, true)
    case None => (0, false)
  }

  /** The upper-case digit character for 0..15. */
  function DigitChar(k: nat): (c: char)
    requires k < 16
    ensures DigitValue(c) == Some(k) && !IsSpace(c) && UpperChar(c) == c
  {
    if k < 10 then ('0' as int + k) as char else ('A' as int + k - 10) as char
  }

  /** Every character is a digit of the base. */
  predicate DigitsOf(s: string, base: nat)
  {
    forall i :: 0 <= i < |s| ==> DigitValue(s[i]).Some? && DigitValue(s[i]).value < base
  }

  /** The digits of `n` in the base, most significant first: digits of
      the base, upper case, never white space. */
  function Numeral(n: nat, base: nat): (r: string)
    requires 2 <= base <= 16
    ensures |r| >= 1
    decreases n
  {
    if n < base then [DigitChar(n)] else Numeral(n / base, base) + [DigitChar(n % base)]
  }

  /** A numeral holds only digits of its base, in upper case, and no white
      space. */
  lemma {:induction false} NumeralChars(n: nat, base: nat)
    requires 2 <= base <= 16
    ensures DigitsOf(Numeral(n, base), base)
    ensures forall i :: 0 <= i < |Numeral(n, base)| ==>
      UpperChar(Numeral(n, base)[i]) == Numeral(n, base)[i] && !IsSpace(Numeral(n, base)[i])
    decreases n
  {
    if n >= base {
      var q, r := NumeralSplit(n, base);
      NumeralChars(q, base);
    }
  }

  /** Appending a digit multiplies the value by the base and adds it. */
  lemma NumeralValueSnoc(ds: string, d: nat, base: nat)
    requires d < base && d < 16
    ensures NumeralValue(ds + [DigitChar(d)], base) ==
      if NumeralValue(ds, base).Some? then Some(NumeralValue(ds, base).value * base + d) else None
  {
    assert (ds + [DigitChar(d)])[..|ds|] == ds;
  }

  /** A numeral of two or more digits is the numeral of the quotient
      followed by the digit of the remainder. */
  lemma NumeralSplit(n: nat, base: nat) returns (q: nat, r: nat)
    requires 2 <= base <= 16 && n >= base
    ensures q < n && r < base && n == q * base + r
    ensures Numeral(n, base) == Numeral(q, base) + [DigitChar(r)]
  {
    q, r := n / base, n % base;
    DivMod(n, base);
  }

  lemma DivMod(n: nat, base: nat)
    requires base >= 2
    ensures n == (n / base) * base + n % base
  {
  }

  /** A digit appended to a numeral of value `high` gives `high * base +
      d`. */
  lemma AppendDigit(ds: string, high: nat, d: nat, base: nat, n: nat)
    requires d < base && d < 16 && NumeralValue(ds, base) == Some(high) && n == high * base + d
    ensures NumeralValue(ds + [DigitChar(d)], base) == Some(n)
  {
    NumeralValueSnoc(ds, d, base);
  }

  lemma {:induction false} NumeralValueOfNumeral(n: nat, base: nat)
    requires 2 <= base <= 16
    ensures NumeralValue(Numeral(n, base), base) == Some(n)
    decreases n
  {
    if n >= base {
      var q, r := NumeralSplit(n, base);
      NumeralValueOfNumeral(q, base);
      AppendDigit(Numeral(q, base), q, r, base, n);
    } else {
      NumeralValueSnoc([], n, base);
      assert [] + [DigitChar(n)] == [DigitChar(n)];
    }
  }

  /** `strip()` leaves a string alone whose ends are not white space. */
  lemma StripKeeps(s: string)
    requires s != [] && !IsSpace(s[0]) && !IsSpace(s[|s| - 1])
    ensures Strip(s) == s
  {
    assert TrimLeft(s) == s;
  }

  lemma {:induction false} DigitsHaveNoUnderscore(s: string, base: nat)
    requires DigitsOf(s, base)
    ensures WithoutUnderscores(s) == s
    decreases |s|
  {
    if s != [] {
      assert DigitValue(s[0]).Some?;
      DigitsHaveNoUnderscore(s[1..], base);
    }
  }

  /** A digit string of the base is what `int()` accepts after the sign
      and the prefix, and it is not mistaken for a prefix itself. */
  lemma DigitsAccepted(digits: string, base: nat, n: nat)
    requires digits != [] && DigitsOf(digits, base) && NumeralValue(digits, base) == Some(n)
    requires base == 2 || base == 10 || base == 16
    ensures ParseUnsigned(digits, base) == Some(n)
    ensures !IsSpace(digits[0]) && !IsSpace(digits[|digits| - 1])
    ensures digits[0] != '-' && digits[0] != '+' && digits[0] != '_' && digits[0] != '$' && digits[0] != '%'
    ensures base == 10 && |digits| >= 2 ==> digits[1] != 'X' && digits[1] != 'B'
    ensures SkipBasePrefix(digits, base) == digits
  {
    DigitsHaveNoUnderscore(digits, base);
    assert DigitValue(digits[0]).Some? && DigitValue(digits[|digits| - 1]).Some?;
    assert |digits| >= 2 ==> DigitValue(digits[1]).Some?;
    assert Grouped(digits);
  }

  /** The facts about a numeral that parsing needs. */
  lemma NumeralAccepted(n: nat, base: nat)
    requires base == 2 || base == 10 || base == 16
    ensures var digits := Numeral(n, base);
      && ParseUnsigned(digits, base) == Some(n)
      && !IsSpace(digits[0]) && !IsSpace(digits[|digits| - 1])
      && digits[0] != '-' && digits[0] != '+' && digits[0] != '_' && digits[0] != '$' && digits[0] != '%'
      && (base == 10 && |digits| >= 2 ==> digits[1] != 'X' && digits[1] != 'B')
      && SkipBasePrefix(digits, base) == digits
  {
    NumeralChars(n, base);
    NumeralValueOfNumeral(n, base);
    DigitsAccepted(Numeral(n, base), base, n);
  }

  /** `int()` reads an unsigned digit string as its value. */
  lemma ParseIntOfDigits(digits: string, base: nat, n: nat)
    requires digits != [] && ParseUnsigned(digits, base) == Some(n)
    requires !IsSpace(digits[0]) && !IsSpace(digits[|digits| - 1]) && digits[0] != '-' && digits[0] != '+'
    ensures ParseInt(digits, base) == Some(n)
  {
    StripKeeps(digits);
  }

  /** ... and with a minus sign in front, its negation. */
  lemma ParseIntOfNegative(digits: string, base: nat, n: nat)
    requires digits != [] && ParseUnsigned(digits, base) == Some(n) && !IsSpace(digits[|digits| - 1])
    ensures ParseInt("-" + digits, base) == Some(-(n as int))
  {
    var signed := "-" + digits;
    assert signed[0] == '-' && signed[1..] == digits;
    assert ParseSigned(signed, base) == Some(-(n as int));
    assert signed[|signed| - 1] == digits[|digits| - 1];
    StripKeeps(signed);
  }

  /** For bases 2 and 16 `int()` also skips the matching prefix. */
  lemma ParseIntOfPrefixed(prefix: string, digits: string, base: nat, n: nat)
    requires digits != [] && ParseUnsigned(digits, base) == Some(n)
    requires !IsSpace(digits[|digits| - 1]) && digits[0] != '_' && SkipBasePrefix(digits, base) == digits
    requires (base == 16 && prefix == "0X") || (base == 2 && prefix == "0B")
    ensures ParseInt(prefix + digits, base) == Some(n)
  {
    var t := prefix + digits;
    assert t[2..] == digits && t[|t| - 1] == digits[|digits| - 1];
    assert SkipBasePrefix(t, base) == digits;
    assert ParseUnsigned(t, base) == Some(n);
    StripKeeps(t);
  }

  /** Upper-casing a numeral behind a prefix changes only the prefix. */
  lemma UpperOfPrefixed(prefix: string, n: nat, base: nat)
    requires 2 <= base <= 16
    ensures Upper(prefix + Numeral(n, base)) == Upper(prefix) + Numeral(n, base)
  {
    NumeralChars(n, base);
    var digits := Numeral(n, base);
    var s := prefix + digits;
    assert forall i :: |prefix| <= i < |s| ==> Upper(s)[i] == digits[i - |prefix|];
  }

  /** The text `prefix + Numeral(n, base)` after `strip().upper()`. */
  lemma StripUpperPrefixed(prefix: string, upperPrefix: string, n: nat, base: nat)
    requires base == 2 || base == 10 || base == 16
    requires prefix != [] && !IsSpace(prefix[0]) && Upper(prefix) == upperPrefix
    ensures Upper(Strip(prefix + Numeral(n, base))) == upperPrefix + Numeral(n, base)
  {
    NumeralAccepted(n, base);
    var digits := Numeral(n, base);
    var t := prefix + digits;
    assert t[|t| - 1] == digits[|digits| - 1];
    StripKeeps(t);
    UpperOfPrefixed(prefix, n, base);
  }

  /** A count in hex or binary behind the matching prefix reads back. */
  lemma ReadPrefixed(prefix: string, digits: string, base: nat, n: nat)
    requires digits != [] && ParseUnsigned(digits, base) == Some(n)
    requires !IsSpace(digits[|digits| - 1]) && digits[0] != '_' && SkipBasePrefix(digits, base) == digits
    requires (base == 16 && prefix == "0X") || (base == 2 && prefix == "0B")
    ensures ReadNumber(prefix + digits) == (n, true)
  {
    var t := prefix + digits;
    assert t[..2] == prefix;
    ParseIntOfPrefixed(prefix, digits, base, n);
  }

  /** ... and so does one behind "$" or "%". */
  lemma ReadSigil(sigil: string, digits: string, base: nat, n: nat)
    requires digits != [] && ParseUnsigned(digits, base) == Some(n)
    requires !IsSpace(digits[0]) && !IsSpace(digits[|digits| - 1]) && digits[0] != '-' && digits[0] != '+'
    requires (base == 16 && sigil == "$") || (base == 2 && sigil == "%")
    ensures ReadNumber(sigil + digits) == (n, true)
  {
    var t := sigil + digits;
    assert t[0] == sigil[0] && t[1..] == digits;
    assert !IsPrefix("0X", t) && !IsPrefix("0B", t) by {
      assert t[..2][0] == t[0];
    }
    assert IsPrefix(sigil, t) by {
      assert t[..1] == sigil;
    }
    ParseIntOfDigits(digits, base, n);
    assert base == 16 ==> IsPrefix("$", t);
    assert base == 2 ==> !IsPrefix("$", t) && IsPrefix("%", t);
  }

  /** A decimal count, with or without a minus sign, reads back. */
  lemma ReadDecimal(digits: string, n: nat)
    requires digits != [] && ParseUnsigned(digits, 10) == Some(n)
    requires !IsSpace(digits[0]) && !IsSpace(digits[|digits| - 1])
    requires digits[0] != '-' && digits[0] != '+' && digits[0] != '$' && digits[0] != '%'
    requires |digits| >= 2 ==> digits[1] != 'X' && digits[1] != 'B'
    ensures ReadNumber(digits) == (n, true)
    ensures ReadNumber("-" + digits) == (-(n as int), true)
  {
    ParseIntOfDigits(digits, 10, n);
    assert !IsPrefix("0X", digits) && !IsPrefix("0B", digits) && !IsPrefix("$", digits) && !IsPrefix("%", digits) by {
      assert |digits| >= 2 ==> digits[..2][0] == digits[0] && digits[..2][1] == digits[1];
      assert digits[..1][0] == digits[0];
    }
    var negative := "-" + digits;
    ParseIntOfNegative(digits, 10, n);
    assert !IsPrefix("0X", negative) && !IsPrefix("0B", negative) && !IsPrefix("$", negative) && !IsPrefix("%", negative) by {
      assert negative[..1][0] == negative[0] == '-';
      assert |negative| >= 2 && negative[..2][0] == negative[0];
    }
  }

  /** The prefixes upper-case as `parseNumber` expects. */
  lemma UpperOfPrefixes()
    ensures Upper("0x") == "0X" && Upper("0b") == "0B"
    ensures Upper("$") == "$" && Upper("%") == "%" && Upper("-") == "-"
  {
    assert Upper("0x")[0] == '0' && Upper("0x")[1] == 'X';
    assert Upper("0b")[0] == '0' && Upper("0b")[1] == 'B';
    assert Upper("$")[0] == '$' && Upper("%")[0] == '%' && Upper("-")[0] == '-';
  }

  /** A numeral behind the prefix of its base reads back. */
  lemma ReadPrefixedNumeral(prefix: string, n: nat, base: nat)
    requires (base == 16 && prefix == "0X") || (base == 2 && prefix == "0B")
    ensures ReadNumber(prefix + Numeral(n, base)) == (n, true)
  {
    NumeralAccepted(n, base);
    ReadPrefixed(prefix, Numeral(n, base), base, n);
  }

  /** A numeral behind the sigil of its base reads back. */
  lemma ReadSigilNumeral(sigil: string, n: nat, base: nat)
    requires (base == 16 && sigil == "$") || (base == 2 && sigil == "%")
    ensures ReadNumber(sigil + Numeral(n, base)) == (n, true)
  {
    NumeralAccepted(n, base);
    ReadSigil(sigil, Numeral(n, base), base, n);
  }

  /** A count formatted in hex behind "0x" parses back to its value. */
  lemma HexPrefixRoundTrip(n: nat)
    ensures ParseNumber("0x" + Numeral(n, 16)) == (n, true)
  {
    UpperOfPrefixes();
    StripUpperPrefixed("0x", "0X", n, 16);
    ReadPrefixedNumeral("0X", n, 16);
  }

  /** A count formatted in hex behind "$" parses back to its value. */
  lemma HexSigilRoundTrip(n: nat)
    ensures ParseNumber("$" + Numeral(n, 16)) == (n, true)
  {
    UpperOfPrefixes();
    StripUpperPrefixed("$", "$", n, 16);
    ReadSigilNumeral("$", n, 16);
  }

  /** A count formatted in binary behind "0b" parses back to its value. */
  lemma BinaryPrefixRoundTrip(n: nat)
    ensures ParseNumber("0b" + Numeral(n, 2)) == (n, true)
  {
    UpperOfPrefixes();
    StripUpperPrefixed("0b", "0B", n, 2);
    ReadPrefixedNumeral("0B", n, 2);
  }

  /** A count formatted in binary behind "%" parses back to its value. */
  lemma BinarySigilRoundTrip(n: nat)
    ensures ParseNumber("%" + Numeral(n, 2)) == (n, true)
  {
    UpperOfPrefixes();
    StripUpperPrefixed("%", "%", n, 2);
    ReadSigilNumeral("%", n, 2);
  }

  /** A count written in decimal parses back to its value. */
  lemma DecimalRoundTrip(n: nat)
    ensures ParseNumber(Numeral(n, 10)) == (n, true)
  {
    var digits := Numeral(n, 10);
    NumeralAccepted(n, 10);
    StripKeeps(digits);
    UpperOfPrefixed([], n, 10);
    assert [] + digits == digits;
    ReadDecimal(digits, n);
  }

  /** A negative integer written in decimal parses back to its value. */
  lemma NegativeRoundTrip(n: nat)
    ensures ParseNumber("-" + Numeral(n, 10)) == (-(n as int), true)
  {
    UpperOfPrefixes();
    StripUpperPrefixed("-", "-", n, 10);
    NumeralAccepted(n, 10);
    ReadDecimal(Numeral(n, 10), n);
  }

  /** The prefix is read before the base: "0b1" is binary 1 ... */
  lemma BinaryPrefixExample()
    ensures ReadNumber("0B1") == (1, true)
  {
    assert "0B1"[..2] == "0B";
    assert ParseUnsigned("1", 2) == Some(1) by {
      assert "1"[..0] == [];
    }
    ReadPrefixed("0B", "1", 2, 1);
    assert "0B" + "1" == "0B1";
  }

  /** ... while "$0b1" is hex B1, because "$" is checked after "0B". */
  lemma SigilBeforeDigitsExample()
    ensures ReadNumber("$0B1") == (0xB1, true)
  {
    assert ParseUnsigned("0B1", 16) == Some(0xB1) by {
      assert SkipBasePrefix("0B1", 16) == "0B1";
      assert WithoutUnderscores("0B1") == "0B1";
      assert "0B1"[..2] == "0B" && "0B"[..1] == "0";
      assert NumeralValue("0B", 16) == Some(11);
    }
    ReadSigil("$", "0B1", 16, 0xB1);
    assert "$" + "0B1" == "$0B1";
  }

  /** A prefix with no digits is malformed. */
  lemma EmptyHexExample()
    ensures ReadNumber("0X") == (0, false)
  {
    assert SkipBasePrefix("0X", 16) == [];
    assert ParseUnsigned("0X", 16) == None;
    StripKeeps("0X");
    assert ParseInt("0X", 16) == None;
    assert "0X"[..2] == "0X";
  }

  /** A hex digit without a hex prefix is malformed. */
  lemma StrayLetterExample()
    ensures ParseNumber("12A") == (0, false)
  {
    assert Strip("12A") == "12A";
    assert Upper("12A") == "12A" by { assert Upper("12A")[2] == 'A'; }
    assert WithoutUnderscores("12A") == "12A";
    assert DigitValue("12A"[2]) == Some(10);
  }

  lemma ThousandValue()
    ensures NumeralValue("1000", 10) == Some(1000)
  {
    assert "1000"[..3] == "100" && "100"[..2] == "10" && "10"[..1] == "1";
  }

  /** Underscores between digits are accepted. */
  lemma UnderscoreExample()
    ensures ReadNumber("1_000") == (1000, true)
  {
    assert ParseUnsigned("1_000", 10) == Some(1000) by {
      assert WithoutUnderscores("1_000") == "1000";
      ThousandValue();
      assert Grouped("1_000");
    }
    ReadDecimal("1_000", 1000);
  }

  /** Python's `str` of a non-negative integer is its base-10 numeral. */
  lemma {:induction false} DecimalIsNumeral(n: nat)
    ensures NatToDecimal(n) == Numeral(n, 10)
    decreases n
  {
    if n >= 10 {
      DecimalIsNumeral(n / 10);
    }
  }

  /** A register code with no letter is named "R" and its decimal digits,
      which read back as the code. */
  lemma RegisterNameReadsBack(regCode: int)
    requires !(0 <= regCode <= 3)
    ensures Decoder.RegisterName(regCode)[0] == 'R'
    ensures ParseNumber(Decoder.RegisterName(regCode)[1..]) == (regCode, true)
  {
    var digits := Decoder.RegisterName(regCode)[1..];
    assert digits == IntToDecimal(regCode);
    if regCode < 0 {
      DecimalIsNumeral(-regCode);
      assert digits == "-" + Numeral(-regCode, 10);
      NegativeRoundTrip(-regCode);
    } else {
      DecimalIsNumeral(regCode);
      assert digits == Numeral(regCode, 10);
      DecimalRoundTrip(regCode);
    }
  }

  // ---------------------------------------------------------------------
  // Ring buffer
  // ---------------------------------------------------------------------

  /** The last `n` items of `s`, all of them when it has fewer. */
  function Last<T>(s: seq<T>, n: int): (r: seq<T>)
    ensures |r| == (if n <= 0 then 0 else if n < |s| then n else |s|)
    ensures forall j :: 0 <= j < |r| ==> r[j] == s[|s| - |r| + j]
  {
    if n <= 0 then [] else if n < |s| then s[|s| - n..] else s
  }

  /** The stored items from oldest to newest: the list itself until it is
      full, then the list read circularly from `index`. */
  function Chronological<T>(buffer: seq<T>, index: int, size: int): (r: seq<T>)
    requires |buffer| <= size && 0 <= index < size
    ensures |r| == |buffer|
  {
    if |buffer| < size then buffer else buffer[index..] + buffer[..index]
  }

  /** Python's `s[start:]`. */
  function SliceFrom<T>(s: seq<T>, start: int): (r: seq<T>)
    ensures |r| <= |s|
  {
    if start < 0 then s[Max(0, |s| + start)..] else s[Min(start, |s|)..]
  }

  /** `get_recent(count)` as written: the whole list when it holds no more
      than `count` items, in storage order even once it has wrapped; when
      full, the last `count` items in order; otherwise the slice
      `buffer[-count:]`, which for `count == 0` is the whole list. */
  function RecentAsWritten<T>(buffer: seq<T>, index: int, size: int, count: int): seq<T>
    requires |buffer| <= size && 0 <= index < size
  {
    if buffer == [] then []
    else if |buffer| <= count then buffer
    else if |buffer| == size then Last(Chronological(buffer, index, size), count)
    else SliceFrom(buffer, -count)
  }

  /** What `get_recent(count)` is meant to return: the last `count` items
      in the order they were added. */
  function Recent<T>(buffer: seq<T>, index: int, size: int, count: int): seq<T>
    requires |buffer| <= size && 0 <= index < size
  {
    Last(Chronological(buffer, index, size), count)
  }

  /** The two agree except on a wrapped buffer asked for all of it, and on
      a count of 0 or less. */
  lemma RecentAgrees<T>(buffer: seq<T>, index: int, size: int, count: int)
    requires |buffer| <= size && 0 <= index < size && (|buffer| < size ==> index == 0)
    requires count >= 1 && (|buffer| == size && index != 0 ==> count < size)
    ensures RecentAsWritten(buffer, index, size, count) == Recent(buffer, index, size, count)
  {
    if |buffer| == size && |buffer| <= count {
      assert index == 0;
      ChronologicalFromZero(buffer, size);
    }
  }

  /** Asking a non-full buffer for 0 items returns all of them. */
  lemma RecentZeroReturnsAll()
    ensures RecentAsWritten([1, 2, 3], 0, 100, 0) == [1, 2, 3]
    ensures Recent([1, 2, 3], 0, 100, 0) == []
  {
  }

  /** A wrapped buffer asked for more than it holds returns its storage
      order: after adding 1, 2, 3 to a buffer of size 2 it holds [3, 2]
      with index 1, and `get_recent(5)` returns [3, 2] rather than [2, 3]. */
  lemma RecentWrappedOutOfOrder()
    ensures RecentAsWritten([3, 2], 1, 2, 5) == [3, 2]
    ensures Recent([3, 2], 1, 2, 5) == [2, 3]
  {
    assert [3, 2][1..] + [3, 2][..1] == [2, 3];
  }

  /** Read from position 0, a full list is its own chronological order. */
  lemma ChronologicalFromZero<T>(buffer: seq<T>, size: int)
    requires |buffer| == size >= 1
    ensures Chronological(buffer, 0, size) == buffer
  {
    assert buffer[0..] + buffer[..0] == buffer;
  }

  /** Overwriting the oldest item and advancing `index` drops the oldest
      item and appends the new one. */
  lemma ChronologicalAfterOverwrite<T>(buffer: seq<T>, index: int, size: int, item: T)
    requires |buffer| == size && 0 <= index < size
    ensures Chronological(buffer[index := item], (index + 1) % size, size)
         == Chronological(buffer, index, size)[1..] + [item]
  {
    var written := buffer[index := item];
    if index + 1 < size {
      assert (index + 1) % size == index + 1;
      assert written[index + 1..] == buffer[index + 1..];
      assert written[..index + 1] == buffer[..index] + [item];
      assert (buffer[index..] + buffer[..index])[1..] == buffer[index + 1..] + buffer[..index];
    } else {
      assert (index + 1) % size == 0;
      assert written == buffer[..index] + [item];
      assert written[0..] + written[..0] == written;
      assert (buffer[index..] + buffer[..index])[1..] == buffer[..index];
    }
  }

  lemma ModWrap(a: int, size: int)
    requires size >= 1 && -size <= a < size
    ensures a % size == if a < 0 then a + size else a
  {
    if a < 0 {
      assert a == -1 * size + (a + size);
    }
  }

  /** Reading backwards from `index`, the item `i` places before it is
      the `i`-th newest. */
  lemma BackwardIndex<T>(buffer: seq<T>, index: int, size: int, i: int)
    requires |buffer| == size && 0 <= index < size && 0 <= i < size
    ensures 0 <= (index - 1 - i) % size < size
    ensures Chronological(buffer, index, size)[size - 1 - i] == buffer[(index - 1 - i) % size]
  {
    ModWrap(index - 1 - i, size);
  }

  /** One more of the last items is the one just before them. */
  lemma LastGrows<T>(s: seq<T>, i: int)
    requires 0 <= i < |s|
    ensures Last(s, i + 1) == [s[|s| - 1 - i]] + Last(s, i)
  {
  }

  /** One more recent item, read backwards from `index`, is prepended. */
  lemma RecentStep<T>(buffer: seq<T>, index: int, size: int, i: int)
    requires |buffer| == size && 0 <= index < size && 0 <= i < size
    ensures 0 <= (index - 1 - i) % size < size
    ensures Last(Chronological(buffer, index, size), i + 1)
         == [buffer[(index - 1 - i) % size]] + Last(Chronological(buffer, index, size), i)
  {
    BackwardIndex(buffer, index, size, i);
    LastGrows(Chronological(buffer, index, size), i);
  }

  /** The last `n` items after appending one. */
  lemma LastAfterAppend<T>(h: seq<T>, item: T, n: int)
    requires n >= 1 && |h| >= n
    ensures Last(h + [item], n) == Last(h, n)[1..] + [item]
  {
  }

  /** The last `count` of the last `size` items. */
  lemma LastOfLast<T>(h: seq<T>, size: int, count: int)
    requires count <= size
    ensures Last(Last(h, size), count) == Last(h, count)
  {
  }

  /** The invariant of a ring buffer: at most `size` items, `index` 0
      until it is full, and the items read from `index` are the last
      `size` items added. */
  ghost predicate Ring<T>(buffer: seq<T>, index: int, size: int, history: seq<T>)
  {
    && size >= 1
    && |buffer| <= size
    && 0 <= index < size
    && (|buffer| < size ==> index == 0)
    && Chronological(buffer, index, size) == Last(history, size)
  }

  /** Appending to a buffer with room keeps the invariant. */
  lemma RingAppend<T>(buffer: seq<T>, index: int, size: int, history: seq<T>, item: T)
    requires Ring(buffer, index, size, history) && |buffer| < size
    ensures Ring(buffer + [item], index, size, history + [item])
  {
    assert Last(history, size) == history;
    if |buffer| + 1 == size {
      ChronologicalFromZero(buffer + [item], size);
    }
  }

  /** Overwriting at `index` and moving it on keeps the invariant. */
  lemma RingOverwrite<T>(buffer: seq<T>, index: int, size: int, history: seq<T>, item: T)
    requires Ring(buffer, index, size, history) && |buffer| == size
    ensures Ring(buffer[index := item], (index + 1) % size, size, history + [item])
  {
    ChronologicalAfterOverwrite(buffer, index, size, item);
    LastAfterAppend(history, item, size);
  }

  /** The loop of `get_recent` over a full buffer: each item read
      backwards from `index` is inserted at the front. */
  method RecentOfFull<T>(buffer: seq<T>, index: int, size: int, count: int) returns (items: seq<T>)
    requires |buffer| == size && 0 <= index < size && count < size
    ensures items == Last(Chronological(buffer, index, size), count)
  {
    ghost var chronological := Chronological(buffer, index, size);
    items := [];
    var i := 0;
    while i < count
      invariant 0 <= i <= Max(count, 0)
      invariant items == Last(chronological, i)
    {
      var idx := (index - 1 - i) % size;
      RecentStep(buffer, index, size, i);
      if idx >= 0 {
        items := [buffer[idx]] + items;
      }
      i := i + 1;
    }
  }

  /** A ring buffer of at most `size` items; once full, each new item
      overwrites the oldest one, at `index`. */
  class CircularBuffer<T> {
    const size: int
    var buffer: seq<T>
    var index: int
    /** Every item added since construction or the last `clear`, oldest
        first. */
    ghost var history: seq<T>

    ghost predicate Valid()
      reads this
    {
      Ring(buffer, index, size, history)
    }

    constructor(size: int := 100)
      requires size >= 1
      ensures Valid() && this.size == size && buffer == [] && index == 0 && history == []
    {
      this.size := size;
      buffer := [];
      index := 0;
      history := [];
    }

    /** `add`: append while there is room, then overwrite in a circle. The
        buffer keeps the last `size` items added. */
    method Add(item: T)
      requires Valid()
      modifies this
      ensures Valid() && history == old(history) + [item]
      ensures |old(buffer)| < size ==> buffer == old(buffer) + [item] && index == old(index)
      ensures |old(buffer)| == size ==>
        buffer == old(buffer)[old(index) := item] && index == (old(index) + 1) % size
    {
      if |buffer| < size {
        RingAppend(buffer, index, size, history, item);
        buffer := buffer + [item];
        history := history + [item];
      } else {
        RingOverwrite(buffer, index, size, history, item);
        buffer := buffer[index := item];
        index := (index + 1) % size;
        history := history + [item];
      }
    }

    /** `get_recent`, as written. */
    method GetRecent(count: int := 10) returns (items: seq<T>)
      requires Valid()
      ensures items == RecentAsWritten(buffer, index, size, count)
    {
      if |buffer| == 0 {
        return [];
      }
      if |buffer| <= count {
        return buffer;
      }
      if |buffer| == size {
        items := RecentOfFull(buffer, index, size, count);
        return items;
      }
      return SliceFrom(buffer, -count);
    }

    /** The last `count` items added, oldest first, as `get_recent` is
        meant to return them. */
    method GetRecentInOrder(count: int := 10) returns (items: seq<T>)
      requires Valid()
      ensures items == Last(history, Min(count, size))
    {
      LastOfLast(history, size, Min(count, size));
      items := Recent(buffer, index, size, count);
    }

    /** `clear`: empty the list and restart at position 0. */
    method Clear()
      modifies this
      requires Valid()
      ensures Valid() && buffer == [] && index == 0 && history == []
    {
      buffer := [];
      index := 0;
      history := [];
    }
  }
}

/** The instruction decoder of the emulator: one opcode byte to a mnemonic,
    an operand dictionary and an instruction size, and the disassembly walk
    over a whole image. */
module Decoder {
  import opened Common

  datatype Mnemonic =
    | NOP | OUT | HLT | RST
    | ADD | SUB | MOV | AND | OR | XOR | CMP
    | INC | DEC | LDI | LDM | SAV | NOT | CMI
    | JMP | JMZ | JNZ | JMC | JME | JNG | JML
    | UNKNOWN

  /** The decoder's operand dictionary, keyed by Python attribute-style names
      ("register", "sourceRegister", "destinationRegister", "immediate",
      "address"). */
  type Operands = map<string, int>

  /** The register-to-register operations (format SSDD_oooo). */
  predicate IsTwoRegister(m: Mnemonic)
  {
    m.ADD? || m.SUB? || m.MOV? || m.AND? || m.OR? || m.XOR? || m.CMP?
  }

  /** The operations on one register (format RRTT_oooo). */
  predicate IsOneRegister(m: Mnemonic)
  {
    m.INC? || m.DEC? || m.NOT? || m.LDI? || m.LDM? || m.SAV? || m.CMI?
  }

  /** The jumps, unconditional and conditional. */
  predicate IsJump(m: Mnemonic)
  {
    m.JMP? || m.JMZ? || m.JNZ? || m.JMC? || m.JME? || m.JNG? || m.JML?
  }

  datatype Decoded = Decoded(mnemonic: Mnemonic, operands: Operands, size: nat)

  /** The dictionary `opcodes` as a lookup, `None` for a missing key: the
      full-byte opcodes and the 4-bit ones. The key 0 is both the 8-bit NOP
      opcode and a 4-bit opcode, which is why any byte with low nibble 0
      that is not a literal opcode decodes as NOP. */
  function OpcodeOf(key: int): Option<Mnemonic>
  {
    if key == 0x00 then Some(NOP) else if key == 0x10 then Some(OUT)
    else if key == 0x20 then Some(HLT) else if key == 0xFF then Some(RST)
    else if key == 0x1 then Some(ADD) else if key == 0x2 then Some(SUB)
    else if key == 0x6 then Some(MOV) else if key == 0x7 then Some(AND)
    else if key == 0x8 then Some(OR) else if key == 0x9 then Some(XOR)
    else if key == 0xB then Some(CMP)
    else None
  }

  /** The keys of the dictionary `specialOpcodes`: the families whose upper
      nibble carries a sub-type. */
  predicate IsSpecialFamily(opcode: int)
  {
    opcode == 0x3 || opcode == 0x4 || opcode == 0x5 || opcode == 0xA || opcode == 0xC
  }

  /** `specialOpcodes[family]` as a lookup on the sub-type, `None` for a
      missing key. */
  function SubOpcodeOf(family: int, subType: int): Option<Mnemonic>
  {
    if family == 0x3 then
      (if subType == 0x2 then Some(INC) else if subType == 0x3 then Some(DEC) else None)
    else if family == 0x4 then
      (if subType == 0x0 then Some(LDI) else if subType == 0x1 then Some(LDM)
       else if subType == 0x2 then Some(SAV) else None)
    else if family == 0x5 then
      (if subType == 0x0 then Some(JMP) else if subType == 0x1 then Some(JMZ)
       else if subType == 0x2 then Some(JNZ) else if subType == 0x3 then Some(JMC)
       else if subType == 0x4 then Some(JME) else if subType == 0x5 then Some(JNG)
       else if subType == 0x6 then Some(JML) else None)
    else if family == 0xA then (if subType == 0x0 then Some(NOT) else None)
    else if family == 0xC then (if subType == 0x0 then Some(CMI) else None)
    else None
  }

  const Unknown: Decoded := Decoded(UNKNOWN, map[], 1)

  /** Decodes one instruction byte. `b % 16` is `b & 0x0F` and `b / 16` is
      `(b >> 4) & 0x0F` for a byte. Never fails: an unmatched byte is UNKNOWN
      of size 1. */
  function Decode(instruction: byte): (d: Decoded)
    ensures d.size == 1 || d.size == 2 || d.size == 3
    ensures d.mnemonic == UNKNOWN ==> d == Unknown
  {
    var opcode := instruction % 16;
    var upperNibble := instruction / 16;
    if instruction == 0x00 || instruction == 0x10 || instruction == 0x20 || instruction == 0xFF then
      Decode8bitOpcode(instruction)
    else if IsSpecialFamily(opcode) then DecodeSpecialOpcode(opcode, upperNibble)
    else if OpcodeOf(opcode).Some? then Decode4bitOpcode(opcode, upperNibble)
    else Unknown
  }

  function Decode8bitOpcode(instruction: byte): Decoded
  {
    Decoded(match OpcodeOf(instruction) case Some(m) => m case None => UNKNOWN, map[], 1)
  }

  function DecodeSpecialOpcode(opcode: int, upperNibble: int): (d: Decoded)
    requires IsSpecialFamily(opcode)
    ensures d.size == 1 || d.size == 2 || d.size == 3
    ensures d.mnemonic == UNKNOWN ==> d == Unknown
  {
    var subType := upperNibble % 4;
    var register := (upperNibble / 4) % 4;
    if opcode == 0x5 then
      match SubOpcodeOf(opcode, upperNibble)
      case Some(m) => Decoded(m, map[], 3)
      case None => Unknown
    else
      match SubOpcodeOf(opcode, subType)
      case Some(m) => Decoded(m, map["register" := register], if opcode == 0x4 || opcode == 0xC then 2 else 1)
      case None => Unknown
  }

  function Decode4bitOpcode(opcode: int, upperNibble: int): Decoded
    requires OpcodeOf(opcode).Some?
  {
    Decoded(OpcodeOf(opcode).value,
            map["sourceRegister" := (upperNibble / 4) % 4, "destinationRegister" := upperNibble % 4],
            1)
  }

  /** `registerName`: A..D for codes 0..3, otherwise "R" followed by the code. */
  function RegisterName(regCode: int): (name: string)
    ensures 0 <= regCode <= 3 ==> name == ["ABCD"[regCode]]
    ensures !(0 <= regCode <= 3) ==> |name| >= 2 && name[0] == 'R' && name[1..] == IntToDecimal(regCode)
  {
    if regCode == 0 then "A"
    else if regCode == 1 then "B"
    else if regCode == 2 then "C"
    else if regCode == 3 then "D"
    else "R" + IntToDecimal(regCode)
  }

  // ---------------------------------------------------------------------
  // The decoding table, stated family by family
  // ---------------------------------------------------------------------

  function LowNibble(b: byte): int { b % 16 }
  function HighNibble(b: byte): int { b / 16 }

  /** The register field in bits 7-6: `(upperNibble >> 2) & 0b11`. */
  lemma RegisterBits(b: byte)
    ensures (HighNibble(b) / 4) % 4 == b / 64
  {
  }

  /** The four full-byte opcodes, one byte each, without operands. */
  lemma LiteralOpcodes(b: byte)
    requires b == 0x00 || b == 0x10 || b == 0x20 || b == 0xFF
    ensures Decode(b) ==
      Decoded(if b == 0x00 then NOP else if b == 0x10 then OUT else if b == 0x20 then HLT else RST, map[], 1)
  {
  }

  /** INC/DEC (low nibble 0011): register in bits 7-6, sub-type in bits 5-4. */
  lemma IncDecFamily(b: byte)
    requires LowNibble(b) == 0x3
    ensures var t := HighNibble(b) % 4;
      Decode(b) ==
        if t == 2 then Decoded(INC, map["register" := b / 64], 1)
        else if t == 3 then Decoded(DEC, map["register" := b / 64], 1)
        else Unknown
  {
    RegisterBits(b);
  }

  /** LDI/LDM/SAV (low nibble 0100), two bytes long. */
  lemma LoadStoreFamily(b: byte)
    requires LowNibble(b) == 0x4
    ensures var t := HighNibble(b) % 4;
      Decode(b) ==
        if t == 0 then Decoded(LDI, map["register" := b / 64], 2)
        else if t == 1 then Decoded(LDM, map["register" := b / 64], 2)
        else if t == 2 then Decoded(SAV, map["register" := b / 64], 2)
        else Unknown
  {
    RegisterBits(b);
  }

  /** NOT (low nibble 1010, size 1) and CMI (low nibble 1100, size 2) accept
      only sub-type 00. */
  lemma NotCmiFamilies(b: byte)
    requires LowNibble(b) == 0xA || LowNibble(b) == 0xC
    ensures HighNibble(b) % 4 != 0 ==> Decode(b) == Unknown
    ensures HighNibble(b) % 4 == 0 ==>
      Decode(b) == if LowNibble(b) == 0xA then Decoded(NOT, map["register" := b / 64], 1)
                   else Decoded(CMI, map["register" := b / 64], 2)
  {
    RegisterBits(b);
  }

  /** The seven jumps (low nibble 0101) are three bytes long; an upper nibble
      of 7 or more is UNKNOWN. */
  lemma JumpFamily(b: byte)
    requires LowNibble(b) == 0x5
    ensures HighNibble(b) <= 6 ==>
      Decode(b) == Decoded([JMP, JMZ, JNZ, JMC, JME, JNG, JML][HighNibble(b)], map[], 3)
    ensures HighNibble(b) > 6 ==> Decode(b) == Unknown
  {
  }

  function PlainFamily(low: int): Mnemonic
  {
    if low == 0x1 then ADD else if low == 0x2 then SUB else if low == 0x6 then MOV
    else if low == 0x7 then AND else if low == 0x8 then OR else if low == 0x9 then XOR
    else if low == 0xB then CMP else UNKNOWN
  }

  /** The SSDD families: source in bits 7-6, destination in bits 5-4, size 1. */
  lemma PlainFamilies(b: byte)
    requires LowNibble(b) in {0x1, 0x2, 0x6, 0x7, 0x8, 0x9, 0xB}
    ensures Decode(b) == Decoded(PlainFamily(LowNibble(b)),
                                 map["sourceRegister" := b / 64, "destinationRegister" := HighNibble(b) % 4], 1)
  {
    RegisterBits(b);
  }

  /** Quirk: a byte with low nibble 0 other than the literal opcodes decodes as
      a one-byte NOP carrying source/destination operands. */
  lemma LowNibbleZeroIsNop(b: byte)
    requires LowNibble(b) == 0 && b != 0x00 && b != 0x10 && b != 0x20
    ensures Decode(b) == Decoded(NOP, map["sourceRegister" := b / 64, "destinationRegister" := HighNibble(b) % 4], 1)
  {
    RegisterBits(b);
  }

  /** Exactly which bytes are UNKNOWN. */
  lemma UnknownIff(b: byte)
    ensures Decode(b).mnemonic == UNKNOWN <==>
      var low, t := LowNibble(b), HighNibble(b) % 4;
      || (low == 0x3 && t < 2)
      || (low == 0x4 && t == 3)
      || (low == 0x5 && HighNibble(b) > 6)
      || ((low == 0xA || low == 0xC) && t != 0)
      || (low in {0xD, 0xE} )
      || (low == 0xF && b != 0xFF)
  {
    var low := LowNibble(b);
    if low == 0x3 { IncDecFamily(b); }
    else if low == 0x4 { LoadStoreFamily(b); }
    else if low == 0x5 { JumpFamily(b); }
    else if low == 0xA || low == 0xC { NotCmiFamilies(b); }
    else if low in {0x1, 0x2, 0x6, 0x7, 0x8, 0x9, 0xB} { PlainFamilies(b); }
    else if low == 0 {
      if b != 0x00 && b != 0x10 && b != 0x20 { LowNibbleZeroIsNop(b); } else { LiteralOpcodes(b); }
    }
  }

  /** The one-register operations carry only "register", taken from bits
      7-6. */
  lemma OneRegisterOperands(b: byte)
    requires IsOneRegister(Decode(b).mnemonic)
    ensures Decode(b).operands == map["register" := b / 64]
  {
    var low := LowNibble(b);
    if low == 0x3 { IncDecFamily(b); }
    else if low == 0x4 { LoadStoreFamily(b); }
    else if low == 0xA || low == 0xC { NotCmiFamilies(b); }
    else { UnknownIff(b); OtherFamilies(b); }
  }

  /** The two-register operations carry "sourceRegister" from bits 7-6 and
      "destinationRegister" from bits 5-4. */
  lemma TwoRegisterOperands(b: byte)
    requires IsTwoRegister(Decode(b).mnemonic)
    ensures Decode(b).operands == map["sourceRegister" := b / 64, "destinationRegister" := HighNibble(b) % 4]
    ensures Decode(b).size == 1
  {
    var low := LowNibble(b);
    if low in {0x1, 0x2, 0x6, 0x7, 0x8, 0x9, 0xB} { PlainFamilies(b); }
    else { UnknownIff(b); OtherFamilies(b); }
  }

  /** The jumps carry no operand and are three bytes long. */
  lemma JumpOperands(b: byte)
    requires IsJump(Decode(b).mnemonic)
    ensures Decode(b).operands == map[] && Decode(b).size == 3
  {
    if LowNibble(b) == 0x5 { JumpFamily(b); }
    else { UnknownIff(b); OtherFamilies(b); }
  }

  /** Which family a known byte outside a given low nibble belongs to. */
  lemma OtherFamilies(b: byte)
    requires Decode(b).mnemonic != UNKNOWN
    ensures var m, low := Decode(b).mnemonic, LowNibble(b);
      && (IsOneRegister(m) ==> low == 0x3 || low == 0x4 || low == 0xA || low == 0xC)
      && (IsTwoRegister(m) ==> low in {0x1, 0x2, 0x6, 0x7, 0x8, 0x9, 0xB})
      && (IsJump(m) ==> low == 0x5)
  {
    var low := LowNibble(b);
    if low == 0x3 { IncDecFamily(b); }
    else if low == 0x4 { LoadStoreFamily(b); }
    else if low == 0x5 { JumpFamily(b); }
    else if low == 0xA || low == 0xC { NotCmiFamilies(b); }
    else if low in {0x1, 0x2, 0x6, 0x7, 0x8, 0x9, 0xB} { PlainFamilies(b); }
    else if low == 0 {
      if b != 0x00 && b != 0x10 && b != 0x20 { LowNibbleZeroIsNop(b); } else { LiteralOpcodes(b); }
    } else if b == 0xFF {
      LiteralOpcodes(b);
    } else {
      UnknownIff(b);
    }
  }

  // ---------------------------------------------------------------------
  // decodeProgram
  // ---------------------------------------------------------------------

  datatype Entry = Entry(address: int, mnemonic: Mnemonic, operands: Operands, rawBytes: seq<byte>)

  /** What the walk records for the instruction at `pc`: the decoded operands
      completed with the immediate or the big-endian jump address when the
      whole instruction lies inside the image. */
  function EntryAt(data: seq<byte>, pc: nat): (e: Entry)
    requires pc < |data|
    ensures e.address == pc && e.mnemonic == Decode(data[pc]).mnemonic
    ensures |e.rawBytes| >= 1 && e.rawBytes[0] == data[pc]
  {
    var d := Decode(data[pc]);
    if d.size > 1 && pc + d.size <= |data| then
      var raw := data[pc..pc + d.size];
      Entry(pc, d.mnemonic,
            if d.size == 2 then d.operands["immediate" := raw[1]]
            else d.operands["address" := (raw[1] as int) * 256 + raw[2]],
            raw)
    else Entry(pc, d.mnemonic, d.operands, [data[pc]])
  }

  /** One iteration of the walk: decode the byte at `pc`, collect the
      instruction's bytes when it fits, and add the immediate or address. */
  method DecodeAt(binaryData: seq<byte>, pc: nat) returns (e: Entry)
    requires pc < |binaryData|
    ensures e == EntryAt(binaryData, pc)
  {
    var instByte := binaryData[pc];
    var d := Decode(instByte);
    var operands := d.operands;
    var rawBytes := [instByte];
    if d.size > 1 && pc + d.size <= |binaryData| {
      var i := 1;
      while i < d.size
        invariant 1 <= i <= d.size
        invariant rawBytes == binaryData[pc..pc + i]
      {
        if pc + i < |binaryData| {
          rawBytes := rawBytes + [binaryData[pc + i]];
        }
        i := i + 1;
      }
      if d.size == 2 {
        operands := operands["immediate" := if |rawBytes| > 1 then rawBytes[1] else 0];
      } else if d.size == 3 {
        operands := operands["address" := if |rawBytes| >= 3 then (rawBytes[1] as int) * 256 + rawBytes[2] else 0];
      }
    }
    e := Entry(pc, d.mnemonic, operands, rawBytes);
  }

  /** The entries `decodeProgram` records from `pc` on: the entry at `pc`,
      then the walk from the address after it, until the end of the data. */
  function Walk(data: seq<byte>, pc: nat): seq<Entry>
    decreases |data| - pc
  {
    if pc >= |data| then [] else [EntryAt(data, pc)] + Walk(data, pc + Decode(data[pc]).size)
  }

  lemma WalkAppend(data: seq<byte>, pc: nat, prefix: seq<Entry>)
    requires pc < |data|
    ensures prefix + Walk(data, pc) == (prefix + [EntryAt(data, pc)]) + Walk(data, pc + Decode(data[pc]).size)
  {
  }

  /** `decodeProgram`: walks the image from `startPc`, each next address being
      the previous one plus the decoded size, until the address reaches the
      end of the data. */
  method DecodeProgram(binaryData: seq<byte>, startPc: nat := 0) returns (instructions: seq<Entry>)
    ensures instructions == Walk(binaryData, startPc)
  {
    instructions := [];
    var pc := startPc;
    while pc < |binaryData|
      invariant instructions + Walk(binaryData, pc) == Walk(binaryData, startPc)
      decreases |binaryData| - pc
    {
      var entry := DecodeAt(binaryData, pc);
      var next := pc + Decode(binaryData[pc]).size;
      WalkAppend(binaryData, pc, instructions);
      instructions := instructions + [entry];
      pc := next;
    }
    assert Walk(binaryData, pc) == [];
  }

  /** The walk is empty exactly when it starts past the data, and starts at
      its start address otherwise. */
  lemma WalkStart(data: seq<byte>, pc: nat)
    ensures |Walk(data, pc)| > 0 <==> pc < |data|
    ensures |Walk(data, pc)| > 0 ==> Walk(data, pc)[0].address == pc
  {
  }

  /** Every recorded entry lies inside the data, from the start address on,
      and is the entry decoded at its own address. */
  lemma {:induction false} WalkEntry(data: seq<byte>, pc: nat, k: nat)
    requires k < |Walk(data, pc)|
    ensures var e := Walk(data, pc)[k];
      pc <= e.address < |data| && e == EntryAt(data, e.address)
    decreases k
  {
    if k > 0 {
      var next := pc + Decode(data[pc]).size;
      assert Walk(data, pc)[k] == Walk(data, next)[k - 1];
      WalkEntry(data, next, k - 1);
    }
  }

  /** Each next address is the previous one plus the size decoded there. */
  lemma {:induction false} WalkStep(data: seq<byte>, pc: nat, k: nat)
    requires k + 1 < |Walk(data, pc)|
    ensures var r := Walk(data, pc);
      0 <= r[k].address < |data| &&
      r[k + 1].address == r[k].address + Decode(data[r[k].address]).size
    ensures Walk(data, pc)[k].address < Walk(data, pc)[k + 1].address
    decreases k
  {
    var next := pc + Decode(data[pc]).size;
    if k > 0 {
      assert Walk(data, pc)[k] == Walk(data, next)[k - 1];
      assert Walk(data, pc)[k + 1] == Walk(data, next)[k];
      WalkStep(data, next, k - 1);
    } else {
      WalkStart(data, next);
    }
  }

  /** The instruction after the last one recorded would start past the data. */
  lemma {:induction false} WalkEnd(data: seq<byte>, pc: nat)
    requires |Walk(data, pc)| > 0
    ensures var last := Walk(data, pc)[|Walk(data, pc)| - 1].address;
      0 <= last < |data| && |data| <= last + Decode(data[last]).size
    decreases |data| - pc
  {
    var next := pc + Decode(data[pc]).size;
    WalkAppend(data, pc, []);
    var r := Walk(data, pc);
    var rest := Walk(data, next);
    assert r == [EntryAt(data, pc)] + rest;
    if next < |data| {
      WalkStart(data, next);
      WalkEnd(data, next);
      assert r[|r| - 1] == rest[|rest| - 1];
    } else {
      assert rest == [];
      assert r[|r| - 1] == EntryAt(data, pc);
    }
  }

  /** The recorded addresses are strictly increasing. */
  lemma {:induction false} AddressesIncrease(data: seq<byte>, pc: nat, i: nat, j: nat)
    requires i < j < |Walk(data, pc)|
    ensures Walk(data, pc)[i].address < Walk(data, pc)[j].address
    decreases j - i
  {
    WalkStep(data, pc, j - 1);
    if j > i + 1 {
      AddressesIncrease(data, pc, i, j - 1);
    }
  }
}

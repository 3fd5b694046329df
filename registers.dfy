/** The register file: four 8-bit general-purpose registers A, B, C and D,
    addressed either by a two-bit code or by name.

    The dictionary `registers` always holds exactly the keys 'A'..'D' (no
    operation adds or removes one), so its contents are modelled as a record
    of four cells, and the dictionary itself is rebuilt by `AsDict`. */
module Registers {
  import opened Common

  datatype Reg = A | B | C | D

  /** The four cells of the dictionary `registers`. */
  datatype RegisterValues = RegisterValues(a: byte, b: byte, c: byte, d: byte)

  /** The dictionary after `reset`: every register 0. */
  const Zeroed: RegisterValues := RegisterValues(0, 0, 0, 0)

  /** The dictionary `regMap` as a lookup: codes 0b00..0b11 select A..D,
      any other code is missing. */
  function RegOf(regCode: int): (r: Option<Reg>)
    ensures r.Some? <==> 0 <= regCode <= 3
  {
    if regCode == 0 then Some(A) else if regCode == 1 then Some(B)
    else if regCode == 2 then Some(C) else if regCode == 3 then Some(D)
    else None
  }

  /** The dictionary key of a register. */
  function NameOf(r: Reg): string
  {
    match r
    case A => "A"
    case B => "B"
    case C => "C"
    case D => "D"
  }

  /** `key in self.registers`: the register a key names, if any. */
  function Named(key: string): (r: Option<Reg>)
    ensures r.Some? ==> NameOf(r.value) == key
  {
    if key == "A" then Some(A) else if key == "B" then Some(B)
    else if key == "C" then Some(C) else if key == "D" then Some(D)
    else None
  }

  function Value(regs: RegisterValues, r: Reg): byte
  {
    match r
    case A => regs.a
    case B => regs.b
    case C => regs.c
    case D => regs.d
  }

  function Update(regs: RegisterValues, r: Reg, v: byte): RegisterValues
  {
    match r
    case A => regs.(a := v)
    case B => regs.(b := v)
    case C => regs.(c := v)
    case D => regs.(d := v)
  }

  /** `read`: the register the code selects, 0 for any other code. */
  function ReadReg(regs: RegisterValues, regCode: int): byte
  {
    match RegOf(regCode)
    case Some(r) => Value(regs, r)
    case None => 0
  }

  /** `write`: the selected register takes `value & 0xFF`; any other code
      changes nothing. */
  function WriteReg(regs: RegisterValues, regCode: int, value: int): RegisterValues
  {
    match RegOf(regCode)
    case Some(r) => Update(regs, r, value % 256)
    case None => regs
  }

  /** `readByName`: case-insensitive lookup, 0 for an unknown name. */
  function ReadByName(regs: RegisterValues, regName: string): byte
  {
    match Named(Upper(regName))
    case Some(r) => Value(regs, r)
    case None => 0
  }

  /** `writeByName`: case-insensitive, an unknown name changes nothing. */
  function WriteByName(regs: RegisterValues, regName: string, value: int): RegisterValues
  {
    match Named(Upper(regName))
    case Some(r) => Update(regs, r, value % 256)
    case None => regs
  }

  /** `getAllRegisters`: the dictionary itself, keyed by register name. */
  function AsDict(regs: RegisterValues): map<string, byte>
  {
    map["A" := regs.a, "B" := regs.b, "C" := regs.c, "D" := regs.d]
  }

  /** The dictionary has exactly the four names as keys, each holding its
      register's value. */
  lemma AsDictHoldsEveryRegister(regs: RegisterValues, r: Reg)
    ensures AsDict(regs).Keys == {"A", "B", "C", "D"}
    ensures NameOf(r) in AsDict(regs) && AsDict(regs)[NameOf(r)] == Value(regs, r)
  {
  }

  /** A write is seen by a later read of the same register, and by no other
      register; a write through an invalid code is invisible. */
  lemma ReadAfterWrite(regs: RegisterValues, w: int, r: int, value: int)
    ensures ReadReg(WriteReg(regs, w, value), r)
         == if w == r && 0 <= w <= 3 then value % 256 else ReadReg(regs, r)
  {
  }

  /** Reading or writing by a name that upper-cases to the register's name
      is the same as reading or writing by its code. */
  lemma ByNameAgreesWithCode(regs: RegisterValues, regCode: int, regName: string, value: int)
    requires RegOf(regCode).Some? && RegOf(regCode) == Named(Upper(regName))
    ensures ReadByName(regs, regName) == ReadReg(regs, regCode)
    ensures WriteByName(regs, regName, value) == WriteReg(regs, regCode, value)
  {
  }

  /** Names are case-insensitive: lower-case "a".."d" reach A..D; any other
      name reads 0 and is not written. */
  lemma LowerCaseNames(regs: RegisterValues, value: int)
    ensures ReadByName(regs, "a") == ReadReg(regs, 0) && ReadByName(regs, "d") == ReadReg(regs, 3)
    ensures ReadByName(regs, "e") == 0 && WriteByName(regs, "e", value) == regs
  {
    assert Upper("a") == "A";
    assert Upper("d") == "D";
    assert Upper("e") == "E";
  }

  /** Every register reads 0 after a reset. */
  lemma ZeroedReadsZero(regCode: int)
    ensures ReadReg(Zeroed, regCode) == 0
  {
  }

  class RegisterFile {
    var registers: RegisterValues

    constructor()
      ensures registers == Zeroed
    {
      registers := Zeroed;
    }

    method Reset()
      modifies this
      ensures registers == Zeroed
    {
      registers := Zeroed;
    }

    method Read(regCode: int) returns (value: byte)
      ensures value == ReadReg(registers, regCode)
    {
      match RegOf(regCode)
      case Some(r) =>
        value := Value(registers, r);
      case None =>
        value := 0;
    }

    method Write(regCode: int, value: int)
      modifies this
      ensures registers == WriteReg(old(registers), regCode, value)
    {
      match RegOf(regCode)
      case Some(r) =>
        registers := Update(registers, r, value % 256);
      case None =>
    }

    method ReadByNameOf(regName: string) returns (value: byte)
      ensures value == ReadByName(registers, regName)
    {
      match Named(Upper(regName))
      case Some(r) =>
        value := Value(registers, r);
      case None =>
        value := 0;
    }

    method WriteByNameOf(regName: string, value: int)
      modifies this
      ensures registers == WriteByName(old(registers), regName, value)
    {
      match Named(Upper(regName))
      case Some(r) =>
        registers := Update(registers, r, value % 256);
      case None =>
    }

    /** `getAllRegisters`: a copy, so later writes do not reach it. */
    method GetAllRegisters() returns (snapshot: map<string, byte>)
      ensures snapshot == AsDict(registers)
    {
      snapshot := AsDict(registers);
    }
  }
}

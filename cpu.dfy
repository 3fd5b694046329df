/** The CPU: the fetch/decode/execute state machine over the register file,
    the ALU and the memory, with the program counter, the halted and running
    flags, the seven-segment output latch and the statistics counters.

    `CpuState` is the whole observable state; the pure functions below say
    what each operation does to it, and the class `Cpu8Bit` is proved to do
    exactly that. */
module Cpu {
  import opened Common
  import opened Decoder
  import opened Registers
  import Alu
  import Memory

  datatype CpuState = CpuState(
    regs: RegisterValues,
    flags: Alu.Flags,
    temp1: int,
    temp2: int,
    rom: seq<byte>,
    ram: seq<byte>,
    pc: int,
    ir: byte,
    halted: bool,
    running: bool,
    signedMode: bool,
    sevenSegmentValue: byte,
    outputEnabled: bool,
    instructionCount: nat,
    cycleCount: nat)

  predicate ValidState(s: CpuState)
  {
    |s.rom| == Memory.ROM_SIZE && |s.ram| == Memory.RAM_SIZE
  }

  /** The state of a freshly constructed CPU: empty ROM, signed mode on. */
  const Initial: CpuState :=
    CpuState(Zeroed, Alu.Cleared, 0, 0, Memory.Zeros(Memory.ROM_SIZE), Memory.Zeros(Memory.RAM_SIZE),
             0, 0, false, false, true, 0, false, 0, 0)

  /** The operand keys the two-register handlers look up. */
  datatype Keys = Keys(source: string, destination: string)

  /** The keys the CPU reads, which the decoder never supplies. */
  const CpuKeys: Keys := Keys("source_register", "destination_register")

  /** The keys the decoder writes. */
  const DecoderKeys: Keys := Keys("sourceRegister", "destinationRegister")

  /** `reset`: registers, RAM, flags, PC, IR, latch and counters cleared;
      ROM and signed mode kept. */
  function ResetSpec(s: CpuState): CpuState
  {
    s.(regs := Zeroed, flags := Alu.Cleared, temp1 := 0, temp2 := 0,
       ram := Memory.Zeros(Memory.RAM_SIZE), pc := 0, ir := 0,
       halted := false, running := false, sevenSegmentValue := 0,
       outputEnabled := false, instructionCount := 0, cycleCount := 0)
  }

  /** `fetch`: past the ROM the CPU halts and the byte is 0 (IR unchanged). */
  function FetchSpec(s: CpuState): (CpuState, byte)
  {
    if s.pc >= Memory.ROM_SIZE then (s.(halted := true), 0)
    else
      var instruction := Memory.ReadRomSpec(s.rom, s.pc);
      (s.(ir := instruction), instruction)
  }

  /** `_getNextByte`: the ROM byte after the opcode, 0 past the ROM. */
  function NextByte(s: CpuState): byte
  {
    if s.pc + 1 < Memory.ROM_SIZE then Memory.ReadRomSpec(s.rom, s.pc + 1) else 0
  }

  /** `_getJumpAddress`: `(high << 8) | low`, which is `high * 256 + low`
      because `low` is a byte. */
  function JumpAddress(s: CpuState): int
  {
    (NextByte(s) as int) * 256 + Memory.ReadRomSpec(s.rom, s.pc + 2)
  }

  /** The branch conditions of `_executeJump`. */
  function ShouldJump(m: Mnemonic, f: Alu.Flags): bool
  {
    match m
    case JMP => true
    case JMZ => f.zero
    case JNZ => !f.zero
    case JMC => f.carry
    case JME => f.zero
    case JNG => f.zero || f.negative
    case JML => f.negative && !f.zero
    case _ => false
  }

  /** `operands.get('immediate', self._getNextByte())`. */
  function Immediate(s: CpuState, ops: Operands): int
  {
    Get(ops, "immediate", NextByte(s))
  }

  /** The ALU result and carry of a flag-setting two-register operation,
      destination first (`alu.add(dst_val, src_val)` and so on). */
  function BinaryResult(m: Mnemonic, dst: byte, src: byte): (byte, bool)
  {
    match m
    case ADD => Alu.AddOp(dst, src, 0)
    case AND => (Alu.AndOp(dst, src), false)
    case OR => (Alu.OrOp(dst, src), false)
    case XOR => (Alu.XorOp(dst, src), false)
    case _ => Alu.SubOp(dst, src, 0)
  }

  /** The ALU result and carry of INC, DEC and NOT. */
  function UnaryResult(m: Mnemonic, v: byte): (byte, bool)
  {
    match m
    case INC => Alu.AddOp(v, 1, 0)
    case DEC => Alu.SubOp(v, 1, 0)
    case _ => (Alu.NotOp(v), false)
  }

  /** What a register or ALU handler never touches: the PC, the halted and
      running flags, the counters, the ROM and the signed mode. */
  predicate SameControl(s: CpuState, t: CpuState)
  {
    t.pc == s.pc && t.halted == s.halted && t.running == s.running
    && t.instructionCount == s.instructionCount && t.cycleCount == s.cycleCount
    && t.rom == s.rom && t.signedMode == s.signedMode
  }

  /** ADD, SUB, MOV, AND, OR, XOR and CMP, with the operand keys as a
      parameter; `None` is the `KeyError` raised by a missing key, before
      anything has changed. */
  function TwoRegister(s: CpuState, m: Mnemonic, ops: Operands, keys: Keys): (r: Option<CpuState>)
    requires ValidState(s) && IsTwoRegister(m)
    ensures r.None? <==> keys.source !in ops || keys.destination !in ops
    ensures r.Some? ==> ValidState(r.value) && SameControl(s, r.value)
  {
    if keys.source !in ops || keys.destination !in ops then None
    else Some(RegisterPair(s, m, ops[keys.source], ops[keys.destination]))
  }

  /** A two-register operation once both codes are known: MOV copies the
      source into the destination without touching the flags, CMP sets the
      flags of SUB without writing, the others write the ALU result and set
      its flags. */
  function RegisterPair(s: CpuState, m: Mnemonic, srcCode: int, dstCode: int): (r: CpuState)
    requires ValidState(s) && IsTwoRegister(m)
    ensures ValidState(r) && SameControl(s, r) && r.ram == s.ram
  {
    var src := ReadReg(s.regs, srcCode);
    var dst := ReadReg(s.regs, dstCode);
    if m == MOV then s.(regs := WriteReg(s.regs, dstCode, src))
    else
      var (result, carry) := BinaryResult(m, dst, src);
      var flags := Alu.FlagsFor(result, carry);
      if m == CMP then s.(flags := flags)
      else s.(regs := WriteReg(s.regs, dstCode, result), flags := flags)
  }

  /** INC, DEC, NOT, LDI, LDM, SAV and CMI; `None` when the "register" key is
      missing. */
  function OneRegister(s: CpuState, m: Mnemonic, ops: Operands): (r: Option<CpuState>)
    requires ValidState(s) && IsOneRegister(m)
    ensures r.None? <==> "register" !in ops
    ensures r.Some? ==> ValidState(r.value) && SameControl(s, r.value)
  {
    if "register" !in ops then None
    else
      var code := ops["register"];
      var v := ReadReg(s.regs, code);
      if (m == INC || m == DEC || m == NOT) then
        var (result, carry) := UnaryResult(m, v);
        Some(s.(regs := WriteReg(s.regs, code, result), flags := Alu.FlagsFor(result, carry)))
      else if m == LDI then
        Some(s.(regs := WriteReg(s.regs, code, Immediate(s, ops))))
      else if m == LDM then
        Some(s.(regs := WriteReg(s.regs, code, Memory.ReadRamSpec(s.ram, Immediate(s, ops)))))
      else if m == SAV then
        Some(s.(ram := Memory.WriteRamSpec(s.ram, Immediate(s, ops), v)))
      else
        var (result, borrow) := Alu.SubOp(v, Immediate(s, ops), 0);
        Some(s.(flags := Alu.FlagsFor(result, borrow)))
  }

  /** `_executeJump`: to the target when the condition holds, otherwise past
      the three-byte instruction. */
  function JumpSpec(s: CpuState, m: Mnemonic, ops: Operands): CpuState
  {
    var target := Get(ops, "address", JumpAddress(s));
    if ShouldJump(m, s.flags) then s.(pc := target) else s.(pc := s.pc + 3)
  }

  /** With the target known, a jump is taken or steps over the three-byte
      instruction. */
  lemma JumpTaken(s: CpuState, m: Mnemonic, ops: Operands, target: int)
    requires target == Get(ops, "address", JumpAddress(s))
    ensures JumpSpec(s, m, ops) == if ShouldJump(m, s.flags) then s.(pc := target) else s.(pc := s.pc + 3)
  {
  }

  /** `_executeNop`, `_executeHlt`, `_executeOut`, `_executeRst` and
      `_executeJump`: the handlers that look up no operand key. */
  function ControlSpec(s: CpuState, m: Mnemonic, ops: Operands): (r: CpuState)
    requires ValidState(s)
    ensures ValidState(r) && r.rom == s.rom
  {
    if m == HLT then s.(halted := true)
    else if m == OUT then s.(sevenSegmentValue := ReadByName(s.regs, "A"), outputEnabled := true)
    else if m == RST then ResetSpec(s)
    else if IsJump(m) then JumpSpec(s, m, ops)
    else s
  }

  /** The `_execute*` handler for one mnemonic; `None` when it raises. */
  function PerformSpec(s: CpuState, m: Mnemonic, ops: Operands, keys: Keys): (r: Option<CpuState>)
    requires ValidState(s)
    ensures r.Some? ==> ValidState(r.value) && r.value.rom == s.rom
  {
    if IsTwoRegister(m) then TwoRegister(s, m, ops, keys)
    else if IsOneRegister(m) then OneRegister(s, m, ops)
    else Some(ControlSpec(s, m, ops))
  }

  /** A handler raises exactly when a two-register handler misses one of
      its two keys or a one-register handler misses "register"; a handler
      other than HLT, RST and the jumps leaves the PC, the run flags and the
      counters alone. */
  lemma PerformRaisesIff(s: CpuState, m: Mnemonic, ops: Operands, keys: Keys)
    requires ValidState(s)
    ensures PerformSpec(s, m, ops, keys).None? <==>
      || (IsTwoRegister(m) && (keys.source !in ops || keys.destination !in ops))
      || (IsOneRegister(m) && "register" !in ops)
    ensures var r := PerformSpec(s, m, ops, keys);
      r.Some? && !IsJump(m) && m != HLT && m != RST ==> SameControl(s, r.value)
  {
    if IsTwoRegister(m) {
      assert PerformSpec(s, m, ops, keys) == TwoRegister(s, m, ops, keys);
    } else if IsOneRegister(m) {
      assert PerformSpec(s, m, ops, keys) == OneRegister(s, m, ops);
    } else {
      assert PerformSpec(s, m, ops, keys) == Some(ControlSpec(s, m, ops));
    }
  }

  /** `execute` with the handlers' operand keys as a parameter: an unknown
      opcode advances by its size and fails; a handler that raises halts the
      CPU and fails; otherwise every instruction but a jump or HLT advances
      by its size. */
  function ExecuteWith(s: CpuState, d: Decoded, keys: Keys): (r: (CpuState, bool))
    requires ValidState(s)
    ensures ValidState(r.0) && r.0.rom == s.rom
  {
    var m := d.mnemonic;
    if m == UNKNOWN then (s.(pc := s.pc + d.size), false)
    else
      var p := PerformSpec(s, m, d.operands, keys);
      if p.None? then (s.(halted := true), false)
      else if IsJump(m) || m == HLT then (p.value, true)
      else (p.value.(pc := p.value.pc + d.size), true)
  }

  /** A handler that looks up no key never raises, so `execute` succeeds
      with the control handler's state, advanced unless it jumped or halted. */
  lemma ControlExecutes(s: CpuState, d: Decoded, keys: Keys)
    requires ValidState(s) && d.mnemonic != UNKNOWN
    requires !IsTwoRegister(d.mnemonic) && !IsOneRegister(d.mnemonic)
    ensures var t := ControlSpec(s, d.mnemonic, d.operands);
      ExecuteWith(s, d, keys) ==
        (if IsJump(d.mnemonic) || d.mnemonic == HLT then t else t.(pc := t.pc + d.size), true)
  {
    assert PerformSpec(s, d.mnemonic, d.operands, keys) == Some(ControlSpec(s, d.mnemonic, d.operands));
  }

  /** A one-register handler given its "register" key succeeds, and
      `execute` advances past it. */
  lemma OneRegisterExecutes(s: CpuState, d: Decoded, keys: Keys)
    requires ValidState(s) && IsOneRegister(d.mnemonic) && "register" in d.operands
    ensures var t := OneRegister(s, d.mnemonic, d.operands).value;
      ExecuteWith(s, d, keys) == (t.(pc := t.pc + d.size), true)
  {
    assert PerformSpec(s, d.mnemonic, d.operands, keys) == OneRegister(s, d.mnemonic, d.operands);
  }

  /** A two-register handler missing one of its keys raises, and `execute`
      halts the CPU and fails. */
  lemma TwoRegisterRaises(s: CpuState, d: Decoded, keys: Keys)
    requires ValidState(s) && IsTwoRegister(d.mnemonic)
    requires keys.source !in d.operands || keys.destination !in d.operands
    ensures ExecuteWith(s, d, keys) == (s.(halted := true), false)
  {
    assert PerformSpec(s, d.mnemonic, d.operands, keys) == None;
  }

  /** Both outcomes of `execute` for a known opcode. */
  lemma ExecuteOutcome(s: CpuState, d: Decoded, keys: Keys)
    requires ValidState(s) && d.mnemonic != UNKNOWN
    ensures var p := PerformSpec(s, d.mnemonic, d.operands, keys);
      ExecuteWith(s, d, keys) ==
        if p.None? then (s.(halted := true), false)
        else if IsJump(d.mnemonic) || d.mnemonic == HLT then (p.value, true)
        else (p.value.(pc := p.value.pc + d.size), true)
  {
  }

  /** When the handler raises, `execute` halts the CPU and fails. */
  lemma ExecuteRaised(s: CpuState, d: Decoded, keys: Keys)
    requires ValidState(s) && d.mnemonic != UNKNOWN
    requires PerformSpec(s, d.mnemonic, d.operands, keys).None?
    ensures ExecuteWith(s, d, keys) == (s.(halted := true), false)
  {
  }

  /** When the handler returns, `execute` succeeds with its state, advanced
      past anything but a jump or HLT. */
  lemma ExecuteHandledBy(s: CpuState, d: Decoded, keys: Keys)
    requires ValidState(s) && d.mnemonic != UNKNOWN
    requires PerformSpec(s, d.mnemonic, d.operands, keys).Some?
    ensures var t := PerformSpec(s, d.mnemonic, d.operands, keys).value;
      ExecuteWith(s, d, keys) ==
        (if IsJump(d.mnemonic) || d.mnemonic == HLT then t else t.(pc := t.pc + d.size), true)
  {
  }

  /** A two-register handler given both of its keys succeeds on the pair of
      codes they hold, and `execute` advances past it. */
  lemma TwoRegisterExecutes(s: CpuState, d: Decoded, keys: Keys)
    requires ValidState(s) && IsTwoRegister(d.mnemonic)
    requires keys.source in d.operands && keys.destination in d.operands
    ensures var t := RegisterPair(s, d.mnemonic, d.operands[keys.source], d.operands[keys.destination]);
      ExecuteWith(s, d, keys) == (t.(pc := t.pc + d.size), true)
  {
    TwoRegisterPerformed(s, d.mnemonic, d.operands, keys);
    ExecuteHandledBy(s, d, keys);
  }

  /** A two-register handler given both keys performs the operation on the
      codes they hold. */
  lemma TwoRegisterPerformed(s: CpuState, m: Mnemonic, ops: Operands, keys: Keys)
    requires ValidState(s) && IsTwoRegister(m) && keys.source in ops && keys.destination in ops
    ensures PerformSpec(s, m, ops, keys) == Some(RegisterPair(s, m, ops[keys.source], ops[keys.destination]))
  {
  }

  /** `execute` as written. */
  function ExecuteSpec(s: CpuState, d: Decoded): (CpuState, bool)
    requires ValidState(s)
  {
    ExecuteWith(s, d, CpuKeys)
  }

  /** `step`: nothing while halted; otherwise fetch, decode, execute, and
      count a successful instruction. */
  function StepWith(s: CpuState, keys: Keys): (r: (CpuState, bool))
    requires ValidState(s)
    ensures ValidState(r.0) && r.0.rom == s.rom
  {
    if s.halted then (s, false)
    else
      var fetched := FetchSpec(s);
      var executed := ExecuteWith(fetched.0, Decode(fetched.1), keys);
      if executed.1 then (Counted(executed.0), true) else executed
  }

  /** The counters after a successful step. */
  function Counted(s: CpuState): CpuState
  {
    s.(instructionCount := s.instructionCount + 1, cycleCount := s.cycleCount + 1)
  }

  lemma StepGlue(s0: CpuState, s1: CpuState, instruction: byte, s2: CpuState, success: bool)
    requires ValidState(s0) && !s0.halted && (s1, instruction) == FetchSpec(s0)
    requires (s2, success) == ExecuteWith(s1, Decode(instruction), CpuKeys)
    ensures StepSpec(s0) == if success then (Counted(s2), true) else (s2, false)
  {
  }

  function StepSpec(s: CpuState): (CpuState, bool)
    requires ValidState(s)
  {
    StepWith(s, CpuKeys)
  }

  /** A step from inside the ROM loads the opcode there into the
      instruction register, decodes and executes it. */
  lemma StepInRom(s: CpuState, keys: Keys)
    requires ValidState(s) && !s.halted && 0 <= s.pc < Memory.ROM_SIZE
    ensures var b := s.rom[s.pc];
      var e := ExecuteWith(s.(ir := b), Decode(b), keys);
      StepWith(s, keys) == if e.1 then (Counted(e.0), true) else e
  {
    assert FetchSpec(s) == (s.(ir := s.rom[s.pc]), s.rom[s.pc]);
  }

  /** The loop of `run`, from `executed` steps already taken. */
  function RunLoop(s: CpuState, maxInstructions: int, executed: nat): (r: (CpuState, nat))
    requires ValidState(s)
    ensures ValidState(r.0) && r.0.rom == s.rom
    decreases maxInstructions - executed
  {
    if s.running && !s.halted && executed < maxInstructions then
      var (t, success) := StepSpec(s);
      if !success then (t, executed) else RunLoop(t, maxInstructions, executed + 1)
    else (s, executed)
  }

  /** One turn of the `run` loop. */
  lemma RunLoopUnfold(s: CpuState, maxInstructions: int, executed: nat)
    requires ValidState(s) && s.running && !s.halted && executed < maxInstructions
    ensures RunLoop(s, maxInstructions, executed)
         == if StepSpec(s).1 then RunLoop(StepSpec(s).0, maxInstructions, executed + 1)
            else (StepSpec(s).0, executed)
  {
  }

  /** `run`: set running, loop, clear running, return the step count. */
  function RunSpec(s: CpuState, maxInstructions: int): (CpuState, nat)
    requires ValidState(s)
  {
    var (t, executed) := RunLoop(s.(running := true), maxInstructions, 0);
    (t.(running := false), executed)
  }

  class Cpu8Bit {
    const registers: RegisterFile
    const memory: Memory.Memory
    const alu: Alu.Alu
    var programCounter: int
    var instructionRegister: byte
    var halted: bool
    var running: bool
    var signedMode: bool
    var sevenSegmentValue: byte
    var outputEnabled: bool
    var instructionCount: nat
    var cycleCount: nat

    predicate Valid()
      reads this, registers, memory
    {
      memory.Valid()
    }

    /** The state `getState` reports, plus the ROM and the ALU's scratch
        registers. */
    function State(): CpuState
      reads this, registers, alu, memory, memory.rom, memory.ram
    {
      CpuState(registers.registers, alu.GetFlags(), alu.temp1, alu.temp2,
               memory.RomContents(), memory.RamContents(), programCounter, instructionRegister,
               halted, running, signedMode, sevenSegmentValue, outputEnabled,
               instructionCount, cycleCount)
    }

    constructor()
      ensures Valid() && State() == Initial
    {
      registers := new RegisterFile();
      memory := new Memory.Memory();
      alu := new Alu.Alu();
      programCounter := 0;
      instructionRegister := 0;
      halted := false;
      running := false;
      signedMode := true;
      sevenSegmentValue := 0;
      outputEnabled := false;
      instructionCount := 0;
      cycleCount := 0;
    }

    method Reset()
      requires Valid()
      modifies this, registers, alu, memory
      ensures fresh(memory.ram)
      ensures Valid() && State() == ResetSpec(old(State()))
    {
      ResetComponents();
      ClearControl();
    }

    /** The three component resets; a fresh RAM array replaces the old one. */
    method ResetComponents()
      requires Valid()
      modifies registers, alu, memory
      ensures fresh(memory.ram)
      ensures Valid() && State() == old(State()).(regs := Zeroed, flags := Alu.Cleared, temp1 := 0, temp2 := 0,
                                                  ram := Memory.Zeros(Memory.RAM_SIZE))
    {
      registers.Reset();
      memory.ResetRam();
      alu.Reset();
    }

    /** The CPU's own fields after a reset; `signedMode` is kept. */
    method ClearControl()
      requires Valid()
      modifies this
      ensures Valid() && State() == old(State()).(pc := 0, ir := 0, halted := false, running := false,
                                                  sevenSegmentValue := 0, outputEnabled := false,
                                                  instructionCount := 0, cycleCount := 0)
    {
      programCounter := 0;
      instructionRegister := 0;
      halted := false;
      running := false;
      sevenSegmentValue := 0;
      outputEnabled := false;
      instructionCount := 0;
      cycleCount := 0;
    }

    /** `loadProgram`: `false` is the error `loadRom` raises, which leaves
        everything unchanged; otherwise the ROM is loaded and the CPU reset. */
    method LoadProgram(binaryData: seq<byte>, startAddress: nat := 0) returns (ok: bool)
      requires Valid()
      modifies this, registers, alu, memory, memory.rom
      ensures Valid() && (ok <==> startAddress < Memory.ROM_SIZE)
      ensures State() == if ok
        then ResetSpec(old(State()).(rom := Memory.LoadRomSpec(old(memory.rom[..]), binaryData, startAddress)))
        else old(State())
    {
      ok := memory.LoadRom(binaryData, startAddress);
      if ok {
        Reset();
      }
    }

    method Fetch() returns (instruction: byte)
      requires Valid()
      modifies this
      ensures Valid() && (State(), instruction) == FetchSpec(old(State()))
    {
      if programCounter >= Memory.ROM_SIZE {
        halted := true;
        return 0;
      }
      instruction := memory.ReadRom(programCounter);
      instructionRegister := instruction;
    }

    method GetNextByte() returns (value: byte)
      requires Valid()
      ensures value == NextByte(State())
    {
      var nextPc := programCounter + 1;
      if nextPc < Memory.ROM_SIZE {
        value := memory.ReadRom(nextPc);
      } else {
        value := 0;
      }
    }

    method GetJumpAddress() returns (address: int)
      requires Valid()
      ensures address == JumpAddress(State())
    {
      var highByte := GetNextByte();
      var lowByte := memory.ReadRom(programCounter + 2);
      address := (highByte as int) * 256 + lowByte;
    }

    method GetImmediate(ops: Operands) returns (value: int)
      requires Valid()
      ensures value == Immediate(State(), ops)
    {
      var nextByte := GetNextByte();
      value := if "immediate" in ops then ops["immediate"] else nextByte;
    }

    /** `_executeAdd`, `_executeSub`, `_executeMov`, `_executeAnd`,
        `_executeOr`, `_executeXor` and `_executeCmp`; `raised` is the
        `KeyError` of a missing operand key. */
    method ExecuteTwoRegister(m: Mnemonic, ops: Operands) returns (raised: bool)
      requires Valid() && IsTwoRegister(m)
      modifies registers, alu
      ensures Valid()
      ensures raised <==> TwoRegister(old(State()), m, ops, CpuKeys).None?
      ensures State() == if raised then old(State()) else TwoRegister(old(State()), m, ops, CpuKeys).value
    {
      if CpuKeys.source !in ops || CpuKeys.destination !in ops {
        return true;
      }
      raised := false;
      ExecutePair(m, ops[CpuKeys.source], ops[CpuKeys.destination]);
    }

    /** The body of a two-register handler after both lookups succeeded. */
    method ExecutePair(m: Mnemonic, srcCode: int, dstCode: int)
      requires Valid() && IsTwoRegister(m)
      modifies registers, alu
      ensures Valid() && State() == RegisterPair(old(State()), m, srcCode, dstCode)
    {
      var src := registers.Read(srcCode);
      var dst := registers.Read(dstCode);
      if m == MOV {
        registers.Write(dstCode, src);
      } else if m == CMP {
        alu.Compare(dst, src);
      } else {
        var result := AluBinary(m, dst, src);
        registers.Write(dstCode, result);
      }
    }

    /** The ALU call of ADD, SUB, AND, OR and XOR. */
    method AluBinary(m: Mnemonic, dst: byte, src: byte) returns (result: byte)
      requires (m == ADD || m == SUB || m == AND || m == OR || m == XOR)
      modifies alu
      ensures result == BinaryResult(m, dst, src).0
      ensures alu.GetFlags() == Alu.FlagsFor(result, BinaryResult(m, dst, src).1)
      ensures alu.temp1 == old(alu.temp1) && alu.temp2 == old(alu.temp2)
    {
      var carry;
      if m == ADD {
        result, carry := alu.Add(dst, src, 0);
      } else if m == SUB {
        result, carry := alu.Subtract(dst, src, 0);
      } else if m == AND {
        result := alu.LogicalAnd(dst, src);
      } else if m == OR {
        result := alu.LogicalOr(dst, src);
      } else {
        result := alu.LogicalXor(dst, src);
      }
    }

    /** The ALU call of INC, DEC and NOT. */
    method AluUnary(m: Mnemonic, v: byte) returns (result: byte)
      requires (m == INC || m == DEC || m == NOT)
      modifies alu
      ensures result == UnaryResult(m, v).0
      ensures alu.GetFlags() == Alu.FlagsFor(result, UnaryResult(m, v).1)
      ensures alu.temp1 == old(alu.temp1) && alu.temp2 == old(alu.temp2)
    {
      if m == INC {
        result := alu.Increment(v);
      } else if m == DEC {
        result := alu.Decrement(v);
      } else {
        result := alu.LogicalNot(v);
      }
    }

    /** `_executeInc`, `_executeDec`, `_executeNot`, `_executeLdi`,
        `_executeLdm`, `_executeSav` and `_executeCmi`; `raised` is the
        `KeyError` of a missing "register" key. */
    method ExecuteOneRegister(m: Mnemonic, ops: Operands) returns (raised: bool)
      requires Valid() && IsOneRegister(m)
      modifies registers, alu, memory.ram
      ensures Valid()
      ensures raised <==> OneRegister(old(State()), m, ops).None?
      ensures State() == if raised then old(State()) else OneRegister(old(State()), m, ops).value
    {
      if "register" !in ops {
        return true;
      }
      raised := false;
      if (m == INC || m == DEC || m == NOT) {
        ExecuteUnary(m, ops);
      } else if m == LDI {
        ExecuteLdi(ops);
      } else if m == LDM {
        ExecuteLdm(ops);
      } else if m == SAV {
        ExecuteSav(ops);
      } else {
        ExecuteCmi(ops);
      }
    }

    /** `_executeInc`, `_executeDec` and `_executeNot`. */
    method ExecuteUnary(m: Mnemonic, ops: Operands)
      requires Valid() && (m == INC || m == DEC || m == NOT) && "register" in ops
      modifies registers, alu
      ensures Valid() && State() == OneRegister(old(State()), m, ops).value
    {
      var code := ops["register"];
      var v := registers.Read(code);
      var result := AluUnary(m, v);
      registers.Write(code, result);
    }

    method ExecuteLdi(ops: Operands)
      requires Valid() && "register" in ops
      modifies registers
      ensures Valid() && State() == OneRegister(old(State()), LDI, ops).value
    {
      var immediate := GetImmediate(ops);
      registers.Write(ops["register"], immediate);
    }

    method ExecuteLdm(ops: Operands)
      requires Valid() && "register" in ops
      modifies registers
      ensures Valid() && State() == OneRegister(old(State()), LDM, ops).value
    {
      var address := GetImmediate(ops);
      var value := memory.ReadRam(address);
      registers.Write(ops["register"], value);
    }

    method ExecuteSav(ops: Operands)
      requires Valid() && "register" in ops
      modifies memory.ram
      ensures Valid() && State() == OneRegister(old(State()), SAV, ops).value
    {
      var address := GetImmediate(ops);
      var value := registers.Read(ops["register"]);
      memory.WriteRam(address, value);
    }

    method ExecuteCmi(ops: Operands)
      requires Valid() && "register" in ops
      modifies alu
      ensures Valid() && State() == OneRegister(old(State()), CMI, ops).value
    {
      var immediate := GetImmediate(ops);
      var v := registers.Read(ops["register"]);
      alu.Compare(v, immediate);
    }

    method ExecuteJump(m: Mnemonic, ops: Operands)
      requires Valid()
      modifies this
      ensures Valid() && State() == JumpSpec(old(State()), m, ops)
    {
      ghost var s := State();
      var target: int;
      if "address" in ops {
        target := ops["address"];
      } else {
        target := GetJumpAddress();
      }
      var flags := alu.GetFlags();
      JumpTaken(s, m, ops, target);
      if ShouldJump(m, flags) {
        JumpTo(target);
      } else {
        Advance(3);
      }
    }

    /** `self.programCounter = target`. */
    method JumpTo(target: int)
      requires Valid()
      modifies this
      ensures Valid() && State() == old(State()).(pc := target)
    {
      programCounter := target;
    }

    /** Dispatch to the handler; `raised` when it raises. */
    method Perform(m: Mnemonic, ops: Operands) returns (raised: bool)
      requires Valid()
      modifies this, registers, alu, memory, memory.ram
      ensures memory.ram == old(memory.ram) || fresh(memory.ram)
      ensures Valid()
      ensures raised <==> PerformSpec(old(State()), m, ops, CpuKeys).None?
      ensures State() == if raised then old(State()) else PerformSpec(old(State()), m, ops, CpuKeys).value
    {
      if IsTwoRegister(m) {
        raised := ExecuteTwoRegister(m, ops);
      } else if IsOneRegister(m) {
        raised := ExecuteOneRegister(m, ops);
      } else {
        ExecuteControl(m, ops);
        raised := false;
      }
    }

    /** The handlers that cannot raise. */
    method ExecuteControl(m: Mnemonic, ops: Operands)
      requires Valid()
      modifies this, registers, alu, memory
      ensures memory.ram == old(memory.ram) || fresh(memory.ram)
      ensures Valid() && State() == ControlSpec(old(State()), m, ops)
    {
      if m == HLT {
        Halt();
      } else if m == OUT {
        var value := registers.ReadByNameOf("A");
        SetOutput(value);
      } else if m == RST {
        Reset();
      } else if IsJump(m) {
        ExecuteJump(m, ops);
      }
    }

    /** `_executeOut`: latch a value on the seven-segment display. */
    method SetOutput(value: byte)
      requires Valid()
      modifies this
      ensures Valid() && State() == old(State()).(sevenSegmentValue := value, outputEnabled := true)
    {
      sevenSegmentValue := value;
      outputEnabled := true;
    }

    method Execute(d: Decoded) returns (success: bool)
      requires Valid()
      modifies this, registers, alu, memory, memory.ram
      ensures memory.ram == old(memory.ram) || fresh(memory.ram)
      ensures Valid() && (State(), success) == ExecuteWith(old(State()), d, CpuKeys)
    {
      if d.mnemonic == UNKNOWN {
        Advance(d.size);
        return false;
      }
      success := ExecuteHandled(d);
    }

    /** `execute` once the opcode is known: run the handler, halt if it
        raised, otherwise advance past anything but a jump or HLT. */
    method ExecuteHandled(d: Decoded) returns (success: bool)
      requires Valid() && d.mnemonic != UNKNOWN
      modifies this, registers, alu, memory, memory.ram
      ensures memory.ram == old(memory.ram) || fresh(memory.ram)
      ensures Valid()
      ensures success == ExecuteWith(old(State()), d, CpuKeys).1
      ensures State() == ExecuteWith(old(State()), d, CpuKeys).0
    {
      ghost var s0 := State();
      ExecuteOutcome(s0, d, CpuKeys);
      var m := d.mnemonic;
      var raised := Perform(m, d.operands);
      if raised {
        Halt();
      } else if !IsJump(m) && m != HLT {
        Advance(d.size);
      }
      success := !raised;
    }

    /** `self.programCounter += n`. */
    method Advance(n: nat)
      requires Valid()
      modifies this
      ensures Valid() && State() == old(State()).(pc := old(State()).pc + n)
    {
      programCounter := programCounter + n;
    }

    /** The exception handler's `self.halted = True`. */
    method Halt()
      requires Valid()
      modifies this
      ensures Valid() && State() == old(State()).(halted := true)
    {
      halted := true;
    }

    method SetRunning(value: bool)
      requires Valid()
      modifies this
      ensures Valid() && State() == old(State()).(running := value)
    {
      running := value;
    }

    /** The counter updates of a successful `step`. */
    method CountInstruction()
      requires Valid()
      modifies this
      ensures Valid() && State() == Counted(old(State()))
    {
      instructionCount := instructionCount + 1;
      cycleCount := cycleCount + 1;
    }

    method Step() returns (success: bool)
      requires Valid()
      modifies this, registers, alu, memory, memory.ram
      ensures memory.ram == old(memory.ram) || fresh(memory.ram)
      ensures Valid() && (State(), success) == StepSpec(old(State()))
    {
      if halted {
        return false;
      }
      ghost var s0 := State();
      var instruction := Fetch();
      ghost var s1 := State();
      var d := Decode(instruction);
      success := Execute(d);
      ghost var s2 := State();
      StepGlue(s0, s1, instruction, s2, success);
      if success {
        CountInstruction();
      }
    }

    method Run(maxInstructions: int := 10000) returns (executed: nat)
      requires Valid()
      modifies this, registers, alu, memory, memory.ram
      ensures memory.ram == old(memory.ram) || fresh(memory.ram)
      ensures Valid() && (State(), executed) == RunSpec(old(State()), maxInstructions)
    {
      SetRunning(true);
      executed := 0;
      ghost var outcome := RunLoop(State(), maxInstructions, 0);
      while running && !halted && executed < maxInstructions
        invariant Valid()
        invariant memory.ram == old(memory.ram) || fresh(memory.ram)
        invariant RunLoop(State(), maxInstructions, executed) == outcome
        decreases maxInstructions - executed
      {
        ghost var before := State();
        RunLoopUnfold(before, maxInstructions, executed);
        var success := Step();
        if !success {
          assert (State(), executed) == outcome;
          break;
        }
        executed := executed + 1;
      }
      assert (State(), executed) == outcome;
      SetRunning(false);
    }
  }
}

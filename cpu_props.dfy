/** What one step and one run of the CPU do, instruction family by
    instruction family, stated over the specification in module Cpu. */
module CpuProperties {
  import opened Common
  import opened Decoder
  import opened Registers
  import Alu
  import Memory
  import opened Cpu

  /** A CPU about to fetch an opcode from inside the ROM. */
  predicate Ready(s: CpuState)
  {
    ValidState(s) && !s.halted && 0 <= s.pc < Memory.ROM_SIZE
  }

  function OpcodeAt(s: CpuState): byte
    requires Ready(s)
  {
    s.rom[s.pc]
  }

  /** A halted CPU does not step: `step` fails and nothing changes. */
  lemma HaltedStepIsNoOp(s: CpuState)
    requires ValidState(s) && s.halted
    ensures StepSpec(s) == (s, false)
  {
  }

  /** Fetching past the ROM halts the CPU, yet the byte 0 it yields is still
      executed as a NOP in the same step, which succeeds and is counted. */
  lemma FetchPastRomRunsNop(s: CpuState)
    requires ValidState(s) && !s.halted && s.pc >= Memory.ROM_SIZE
    ensures StepSpec(s) == (Counted(s.(halted := true, pc := s.pc + 1)), true)
  {
    var s1 := s.(halted := true);
    assert FetchSpec(s) == (s1, 0);
    LiteralOpcodes(0x00);
    ControlExecutes(s1, Decoded(NOP, map[], 1), CpuKeys);
    assert ControlSpec(s1, NOP, map[]) == s1;
  }

  /** An UNKNOWN opcode advances the PC by 1 and fails without halting. */
  lemma UnknownAdvancesByOne(s: CpuState)
    requires Ready(s) && Decode(OpcodeAt(s)).mnemonic == UNKNOWN
    ensures StepSpec(s) == (s.(ir := OpcodeAt(s), pc := s.pc + 1), false)
  {
    StepInRom(s, CpuKeys);
  }

  /** ADD, SUB, MOV, AND, OR, XOR and CMP always halt the CPU: the handlers
      look up "source_register" and "destination_register", which `decode`
      never supplies, and the exception handler halts. Nothing else but the
      instruction register changes. */
  lemma TwoRegisterAlwaysHalts(s: CpuState)
    requires Ready(s) && IsTwoRegister(Decode(OpcodeAt(s)).mnemonic)
    ensures StepSpec(s) == (s.(ir := OpcodeAt(s), halted := true), false)
  {
    var b := OpcodeAt(s);
    var d := Decode(b);
    var s1 := s.(ir := b);
    StepInRom(s, CpuKeys);
    TwoRegisterOperands(b);
    assert CpuKeys.source !in d.operands;
    TwoRegisterRaises(s1, d, CpuKeys);
  }

  /** HLT halts with the PC left on the HLT and counts as executed; the next
      step is a no-op. */
  lemma HltStops(s: CpuState)
    requires Ready(s) && OpcodeAt(s) == 0x20
    ensures StepSpec(s) == (Counted(s.(ir := 0x20, halted := true)), true)
    ensures StepSpec(StepSpec(s).0) == (StepSpec(s).0, false)
  {
    var s1 := s.(ir := 0x20);
    StepInRom(s, CpuKeys);
    LiteralOpcodes(0x20);
    ControlExecutes(s1, Decoded(HLT, map[], 1), CpuKeys);
  }

  /** RST resets and then still advances by its size, so the PC is 1 and the
      instruction count 1 afterwards; ROM and signed mode survive. */
  lemma RstRestartsAtOne(s: CpuState)
    requires Ready(s) && OpcodeAt(s) == 0xFF
    ensures StepSpec(s) == (Counted(ResetSpec(s).(pc := 1)), true)
    ensures var t := StepSpec(s).0;
      t.pc == 1 && t.instructionCount == 1 && !t.running && !t.halted
      && t.rom == s.rom && t.signedMode == s.signedMode && t.regs == Zeroed
  {
    var s1 := s.(ir := 0xFF);
    StepInRom(s, CpuKeys);
    LiteralOpcodes(0xFF);
    ControlExecutes(s1, Decoded(RST, map[], 1), CpuKeys);
    assert ResetSpec(s1) == ResetSpec(s);
  }

  /** Every other non-jump instruction succeeds, advances the PC by its
      decoded size and bumps both counters. */
  lemma OtherInstructionsAdvance(s: CpuState)
    requires Ready(s)
    requires var m := Decode(OpcodeAt(s)).mnemonic; IsOneRegister(m) || m == NOP || m == OUT
    ensures var (t, success) := StepSpec(s);
      && success
      && t.pc == s.pc + Decode(OpcodeAt(s)).size
      && t.instructionCount == s.instructionCount + 1
      && t.cycleCount == s.cycleCount + 1
      && !t.halted && t.rom == s.rom
  {
    var b := OpcodeAt(s);
    var d := Decode(b);
    var s1 := s.(ir := b);
    StepInRom(s, CpuKeys);
    if IsOneRegister(d.mnemonic) {
      OneRegisterOperands(b);
      OneRegisterExecutes(s1, d, CpuKeys);
    } else {
      ControlExecutes(s1, d, CpuKeys);
    }
  }

  /** The big-endian jump target in the two bytes after the opcode, 0 for a
      byte past the ROM. */
  function TargetBytes(rom: seq<byte>, pc: int): int
    requires |rom| == Memory.ROM_SIZE && pc >= 0
  {
    var high := if pc + 1 < Memory.ROM_SIZE then rom[pc + 1] else 0;
    var low := if pc + 2 < Memory.ROM_SIZE then rom[pc + 2] else 0;
    (high as int) * 256 + low
  }

  /** A jump handler never raises and `execute` does not advance past it. */
  lemma JumpExecutes(s: CpuState, d: Decoded, keys: Keys)
    requires ValidState(s) && IsJump(d.mnemonic)
    ensures ExecuteWith(s, d, keys) == (JumpSpec(s, d.mnemonic, d.operands), true)
  {
    ControlExecutes(s, d, keys);
  }

  /** Without an "address" operand the jump reads its target from the two
      ROM bytes after the opcode. */
  lemma JumpTarget(s: CpuState, m: Mnemonic)
    requires ValidState(s) && s.pc >= 0
    ensures JumpSpec(s, m, map[]) ==
      s.(pc := if ShouldJump(m, s.flags) then TargetBytes(s.rom, s.pc) else s.pc + 3)
  {
    assert JumpAddress(s) == TargetBytes(s.rom, s.pc);
  }

  /** A jump succeeds; it lands on the target when its condition holds on
      the current flags and skips its three bytes otherwise. */
  lemma JumpsLandOrSkip(s: CpuState)
    requires Ready(s) && IsJump(Decode(OpcodeAt(s)).mnemonic)
    ensures var (t, success) := StepSpec(s);
      && success
      && t.pc == (if ShouldJump(Decode(OpcodeAt(s)).mnemonic, s.flags) then TargetBytes(s.rom, s.pc) else s.pc + 3)
      && t.flags == s.flags && t.regs == s.regs && t.ram == s.ram && !t.halted
  {
    var b := OpcodeAt(s);
    var s1 := s.(ir := b);
    JumpStep(s);
    JumpTarget(s1, Decode(b).mnemonic);
  }

  /** A jump step is the counted jump handler on the fetched state. */
  lemma JumpStep(s: CpuState)
    requires Ready(s) && IsJump(Decode(OpcodeAt(s)).mnemonic)
    ensures var b := OpcodeAt(s);
      StepSpec(s) == (Counted(JumpSpec(s.(ir := b), Decode(b).mnemonic, map[])), true)
  {
    var b := OpcodeAt(s);
    var d := Decode(b);
    StepInRom(s, CpuKeys);
    JumpOperands(b);
    JumpExecutes(s.(ir := b), d, CpuKeys);
  }

  /** The jump conditions: JMZ and JME on zero, JNZ on not zero, JMC on
      carry, JNG on zero or negative, JML on negative and not zero. */
  lemma JumpConditions(f: Alu.Flags)
    ensures ShouldJump(JMP, f)
    ensures ShouldJump(JMZ, f) == f.zero == ShouldJump(JME, f)
    ensures ShouldJump(JNZ, f) == !f.zero
    ensures ShouldJump(JMC, f) == f.carry
    ensures ShouldJump(JNG, f) == (f.zero || f.negative)
    ensures ShouldJump(JML, f) == (f.negative && !f.zero)
  {
  }

  /** Exactly the instructions that are neither UNKNOWN nor two-register
      ones succeed. */
  lemma StepSucceedsIff(s: CpuState)
    requires Ready(s)
    ensures var m := Decode(OpcodeAt(s)).mnemonic;
      StepSpec(s).1 <==> m != UNKNOWN && !IsTwoRegister(m)
  {
    var b := OpcodeAt(s);
    var m := Decode(b).mnemonic;
    if m == UNKNOWN {
      UnknownAdvancesByOne(s);
    } else if IsTwoRegister(m) {
      TwoRegisterAlwaysHalts(s);
    } else if m == HLT {
      HltStops(s);
    } else if m == RST {
      RstRestartsAtOne(s);
    } else if IsJump(m) {
      JumpsLandOrSkip(s);
    } else {
      OtherInstructionsAdvance(s);
    }
  }

  /** With the keys the decoder actually writes ("sourceRegister" and
      "destinationRegister"), a two-register instruction runs its handler on
      the source code in bits 7-6 and the destination code in bits 5-4,
      succeeds and advances by one byte. */
  lemma DecoderKeysTwoRegisterRuns(s: CpuState)
    requires Ready(s) && IsTwoRegister(Decode(OpcodeAt(s)).mnemonic)
    ensures var b := OpcodeAt(s);
      var t := RegisterPair(s.(ir := b), Decode(b).mnemonic, b / 64, HighNibble(b) % 4);
      StepWith(s, DecoderKeys) == (Counted(t.(pc := s.pc + 1)), true)
  {
    var b := OpcodeAt(s);
    StepInRom(s, DecoderKeys);
    TwoRegisterOperands(b);
    TwoRegisterExecutes(s.(ir := b), Decode(b), DecoderKeys);
  }

  /** ADD on a register pair: the destination receives the sum modulo 256
      and the carry is set exactly when the sum exceeds 255. */
  lemma PairAdds(s: CpuState, srcCode: int, dstCode: int)
    requires ValidState(s) && 0 <= dstCode <= 3
    ensures var src, dst := ReadReg(s.regs, srcCode), ReadReg(s.regs, dstCode);
      var t := RegisterPair(s, ADD, srcCode, dstCode);
      ReadReg(t.regs, dstCode) == (dst + src) % 256 && (t.flags.carry <==> dst + src > 255)
  {
    var src, dst := ReadReg(s.regs, srcCode), ReadReg(s.regs, dstCode);
    Alu.AddOpMeaning(dst, src, 0);
    ReadAfterWrite(s.regs, dstCode, dstCode, Alu.AddOp(dst, src, 0).0);
  }

  /** With the decoder's keys, exactly the known instructions succeed. */
  lemma DecoderKeysStepSucceedsIff(s: CpuState)
    requires Ready(s)
    ensures StepWith(s, DecoderKeys).1 <==> Decode(OpcodeAt(s)).mnemonic != UNKNOWN
  {
    var b := OpcodeAt(s);
    var d := Decode(b);
    var s1 := s.(ir := b);
    StepInRom(s, DecoderKeys);
    if d.mnemonic == UNKNOWN {
    } else if IsTwoRegister(d.mnemonic) {
      DecoderKeysTwoRegisterRuns(s);
    } else if IsOneRegister(d.mnemonic) {
      OneRegisterOperands(b);
      OneRegisterExecutes(s1, d, DecoderKeys);
    } else {
      ControlExecutes(s1, d, DecoderKeys);
    }
  }

  /** The loop never counts past its bound and never counts down. */
  lemma {:induction false} RunLoopBounds(s: CpuState, maxInstructions: int, executed: nat)
    requires ValidState(s)
    ensures RunLoop(s, maxInstructions, executed).1 >= executed
    ensures executed <= maxInstructions ==> RunLoop(s, maxInstructions, executed).1 <= maxInstructions
    decreases maxInstructions - executed
  {
    if s.running && !s.halted && executed < maxInstructions {
      var (t, success) := StepSpec(s);
      if success {
        RunLoopBounds(t, maxInstructions, executed + 1);
      }
    }
  }

  /** `run` returns at most `max_instructions` (0 for a bound of 0 or less)
      and leaves the CPU not running with its ROM unchanged. */
  lemma RunBounded(s: CpuState, maxInstructions: int)
    requires ValidState(s)
    ensures 0 <= RunSpec(s, maxInstructions).1
    ensures maxInstructions >= 0 ==> RunSpec(s, maxInstructions).1 <= maxInstructions
    ensures maxInstructions <= 0 ==> RunSpec(s, maxInstructions).1 == 0
    ensures !RunSpec(s, maxInstructions).0.running && RunSpec(s, maxInstructions).0.rom == s.rom
  {
    RunLoopBounds(s.(running := true), maxInstructions, 0);
  }

  /** A halted CPU does not run. */
  lemma HaltedDoesNotRun(s: CpuState, maxInstructions: int)
    requires ValidState(s) && s.halted
    ensures RunSpec(s, maxInstructions) == (s.(running := false), 0)
  {
  }

  /** Because reset clears `running`, a run that meets RST stops right after
      it, having executed one instruction. */
  lemma RstStopsRun(s: CpuState, maxInstructions: int)
    requires Ready(s) && OpcodeAt(s) == 0xFF && maxInstructions >= 1
    ensures RunSpec(s, maxInstructions) == (Counted(ResetSpec(s).(pc := 1)), 1)
  {
    var r := s.(running := true);
    RstRestartsAtOne(r);
    assert ResetSpec(r) == ResetSpec(s);
    RunLoopUnfold(r, maxInstructions, 0);
  }
}

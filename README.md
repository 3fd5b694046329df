# Computer8Bit in Dafny

A model of the Python tools of Computer8Bit, a hand-built 8-bit computer, with proofs about them:

- **Emulator.** The register file, the ALU, the 2 KB ROM and 16-byte RAM, the instruction decoder and the CPU's fetch/execute/run cycle, plus the helper routines and the program loader. These are classes whose methods are proved against pure specification functions. Lemmas then state what the CPU promises: halting, jumps, flags, wrap-around and the bound on a run.
- **Assembler.** Line cleaning, number parsing and instruction encoding.
- **Seven-segment driver image.** A generated 2048-byte EEPROM image for the display.
- **Microcode tools.** These read instruction truth tables and do the following:
  - expand don't-care address bits;
  - pack data bytes;
  - sort the rows of a table by the configuration;
  - fold the control rows into virtual pin lines;
  - fill the EEPROM banks, last write wins.

  Four tools are modelled:
  - GenMicroCode/ParseInstruction.py and Microcode/GenMicrocode/ParseInstruction.py share one class, `MicrocodeGenerator.ParseInstructions`. A `Generator` value selects the behaviour of one or the other.
  - The class of Microcode/ParseInstruction.py is `MicrocodeParser.ParseInstructions`.
  - The class `GenAutoInstructions` of Microcode/CreateAutogenIns.py sets its configuration and table list once, in its constructor, and never updates a field. It has no class here: the functions and methods of `Autogen` take those two values as parameters.

Modules, one per source component:

| module | file | source |
|---|---|---|
| `Common` | common.dfy | bytes, `Option`/`Result`, the Python string helpers used below |
| `Registers` | registers.dfy | Emulator/core/registers.py |
| `Alu` | alu.dfy | Emulator/core/alu.py |
| `Memory` | memory.dfy | Emulator/core/memory.py |
| `Decoder` | decoder.dfy | Emulator/core/decoder.py |
| `Cpu`, `CpuProperties` | cpu.dfy, cpu_props.dfy | Emulator/core/cpu.py |
| `Helpers` | helpers.dfy | Emulator/utils/helpers.py |
| `Loader` | loader.dfy | Emulator/utils/loader.py |
| `Compiler` | compiler.dfy | Compiler/Compiler.py |
| `SevenSegment` | sevenseg.dfy | Gen7segDriver/Gen7segDriver.py |
| `Dict` | dict.dfy | Python's insertion-ordered `dict` as a list of pairs |
| `MicrocodeConfig` | config.dfy | Microcode/ParseConfig.py |
| `TruthTable` | truthtable.dfy | `getValueFromList` and `getPossiableValueCombinations`, which are the same in all three microcode tools |
| `InstructionText` | instext.dfy | splitting an instruction table into lines and cells, and finding its name |
| `Autogen` | autogen.dfy | Microcode/CreateAutogenIns.py; its row sorting and autogen functions are shared with Microcode/ParseInstruction.py |
| `MicrocodeTables` | tables.dfy | the row loop of `parseEachInstruction` in GenMicroCode/ParseInstruction.py and Microcode/GenMicrocode/ParseInstruction.py |
| `MicrocodeBanks` | banks.dfy | `generateAddressDataMap` of the same two files |
| `MicrocodeGenerator` | generator.dfy | the class `ParseInstructions` of the same two files |
| `MicrocodeParser` | parsetool.dfy | the class `ParseInstructions` of Microcode/ParseInstruction.py |

## Model

| member | source | states |
|---|---|---|
| Registers.RegOf | Emulator/core/registers.py:26-27 | a register code names a register exactly when it is 0 to 3 |
| Registers.Named | Emulator/core/registers.py:43 | a name that finds a register is that register's key |
| Registers.AsDictHoldsEveryRegister | Emulator/core/registers.py:50-52 | the copy of the registers has exactly the keys A, B, C, D, each holding its register's value |
| Registers.ReadAfterWrite | Emulator/core/registers.py:21-39 | reading after a write gives the written value masked to 8 bits when the codes match and are 0 to 3, and the old value otherwise; an invalid code writes nothing |
| Registers.ByNameAgreesWithCode | Emulator/core/registers.py:21-48 | reading or writing by a name (in any case) agrees with reading or writing by the code of the same register |
| Registers.LowerCaseNames | Emulator/core/registers.py:41-48 | names are upper-cased before lookup; an unknown name reads 0 and writes nothing |
| Registers.ZeroedReadsZero | Emulator/core/registers.py:12-29 | after reset every code reads 0 |
| Registers.RegisterFile.constructor | Emulator/core/registers.py:9-19 | a new register file holds zero in all four registers |
| Registers.RegisterFile.Reset | Emulator/core/registers.py:12-19 | reset zeroes all four registers |
| Registers.RegisterFile.Read | Emulator/core/registers.py:21-29 | the value read is the register's value for codes 0 to 3, else 0 |
| Registers.RegisterFile.Write | Emulator/core/registers.py:31-39 | the new registers are the old ones with the coded register set to the value masked to 8 bits |
| Registers.RegisterFile.ReadByNameOf | Emulator/core/registers.py:41-43 | reading by name is the upper-cased name's register, or 0 |
| Registers.RegisterFile.WriteByNameOf | Emulator/core/registers.py:45-48 | writing by name sets the upper-cased name's register, if there is one, to the value masked to 8 bits |
| Registers.RegisterFile.GetAllRegisters | Emulator/core/registers.py:50-52 | the snapshot is the dictionary of all four registers |
| Alu.BitAnd | Emulator/core/alu.py:67 | bitwise AND of two n-bit numbers is below 2^n |
| Alu.BitOr | Emulator/core/alu.py:73 | bitwise OR of two n-bit numbers is below 2^n |
| Alu.BitXor | Emulator/core/alu.py:79 | bitwise XOR of two n-bit numbers is below 2^n |
| Alu.AddOpMeaning | Emulator/core/alu.py:27-37 | the sum is (a + b + carry) mod 256, and the carry is set exactly when the true sum exceeds 255 |
| Alu.SubOpMeaning | Emulator/core/alu.py:39-53 | the difference is (a - b - borrow) mod 256, and the borrow is set exactly when the true difference is negative |
| Alu.SubUndoesAdd | Emulator/core/alu.py:27-53 | subtracting b undoes adding b on bytes |
| Alu.NotIsComplement | Emulator/core/alu.py:83-87 | NOT of a byte is 255 minus it, and NOT twice is the identity |
| Alu.AndBounds | Emulator/core/alu.py:65-69 | AND is at most each operand, and AND with all ones is the identity |
| Alu.OrBounds | Emulator/core/alu.py:71-75 | OR is at least each operand, and OR with 0 is the identity |
| Alu.XorSelf | Emulator/core/alu.py:77-81 | a number XOR itself is 0 |
| Alu.LogicLaws | Emulator/core/alu.py:65-81 | the same laws for the byte operations the ALU performs |
| Alu.Alu.constructor | Emulator/core/alu.py:9-20 | a new ALU has all flags clear and both temporaries 0 |
| Alu.Alu.Reset | Emulator/core/alu.py:12-20 | reset clears the flags and the temporaries |
| Alu.Alu.SetTemps | Emulator/core/alu.py:22-25 | the temporaries take the values masked to 8 bits, and the flags do not change |
| Alu.Alu.UpdateFlags | Emulator/core/alu.py:97-101 | zero is set when the result is 0, carry is as given, and negative is set when bit 7 is set |
| Alu.Alu.Add | Emulator/core/alu.py:27-37 | the result and carry are the 8-bit sum and carry-out, and the flags are set from them |
| Alu.Alu.Subtract | Emulator/core/alu.py:39-53 | the result and borrow are the 8-bit difference and borrow-out, and the flags are set from them |
| Alu.Alu.Increment | Emulator/core/alu.py:55-58 | the result is the value plus 1, with the flags of that addition |
| Alu.Alu.Decrement | Emulator/core/alu.py:60-63 | the result is the value minus 1, with the flags of that subtraction |
| Alu.Alu.LogicalAnd | Emulator/core/alu.py:65-69 | the result is the bitwise AND, with the carry cleared |
| Alu.Alu.LogicalOr | Emulator/core/alu.py:71-75 | the result is the bitwise OR, with the carry cleared |
| Alu.Alu.LogicalXor | Emulator/core/alu.py:77-81 | the result is the bitwise XOR, with the carry cleared |
| Alu.Alu.LogicalNot | Emulator/core/alu.py:83-87 | the result is the complement masked to 8 bits, with the carry cleared |
| Alu.Alu.Compare | Emulator/core/alu.py:89-95 | the flags are those of a - b, and nothing else changes |
| Alu.Alu.SetFlag | Emulator/core/alu.py:107-110 | a known flag takes the value; an unknown name changes nothing |
| Alu.SetFlagFrame | Emulator/core/alu.py:107-110 | only the named flag changes |
| Alu.FlagLaws | Emulator/core/alu.py:27-101 | after an addition, zero, carry and negative say sum is 0, sum overflows, bit 7; after a subtraction they say a == b, a < b, bit 7; logic operations clear the carry |
| Alu.WrapAround | Emulator/core/alu.py:27-53 | 255 + 1 wraps to 0 with carry and zero set; 0 - 1 wraps to 255 with borrow and negative set |
| Memory.Zeros | Emulator/core/memory.py:14-19 | a cleared memory of n bytes holds zero everywhere |
| Memory.RomDumpSpec | Emulator/core/memory.py:53-56 | for a start and length that are not negative, the dump holds `length` bytes, cut at the end of the ROM (none when the start is past it); in every case it is a run of consecutive ROM bytes from the start as a Python slice reads it, a negative start counting from the end |
| Memory.NegativeBoundsFromEnd | Emulator/core/memory.py:53-56 | a negative slice end or start counts from the end of the ROM: (0, -1) is all but the last byte, (5, -10) stops five bytes before the end, (-4, 2052) is the last four bytes |
| Memory.LoadThenRead | Emulator/core/memory.py:21-41 | after a load, an address inside the loaded range and the ROM reads the loaded byte, and any other address reads what it read before |
| Memory.LoadThenDump | Emulator/core/memory.py:21-56 | dumping what was just loaded gives back the data, cut at the end of the ROM |
| Memory.RamReadAfterWrite | Emulator/core/memory.py:43-51 | RAM reads back a written byte, masked to 8 bits, at every address with the same low four bits; other cells keep their values |
| Memory.RamAliasing | Emulator/core/memory.py:43-46 | RAM addresses wrap every 16, and -1 reads cell 15 |
| Memory.Memory.constructor | Emulator/core/memory.py:9-19 | a new memory has a 2048-byte ROM and a 16-byte RAM, all zero |
| Memory.Memory.LoadRom | Emulator/core/memory.py:21-35 | a start at or past the ROM size fails and changes nothing; otherwise the data is copied from the start up to the end of the ROM |
| Memory.Memory.ReadRom | Emulator/core/memory.py:37-41 | the byte at an address inside the ROM, else 0 |
| Memory.Memory.ReadRam | Emulator/core/memory.py:43-46 | the byte at the address's low four bits |
| Memory.Memory.WriteRam | Emulator/core/memory.py:48-51 | the cell at the address's low four bits takes the value masked to 8 bits, and the rest of the RAM is unchanged |
| Memory.Memory.GetRomDump | Emulator/core/memory.py:53-56 | the dump is the specified slice, with Python's reading of negative bounds and the defaults start 0 and length 32 |
| Memory.Memory.GetRamDump | Emulator/core/memory.py:58-60 | the dump is the 16 RAM bytes |
| Memory.Memory.ResetRam | Emulator/core/memory.py:62-64 | the RAM is replaced by a fresh zeroed 16-byte RAM |
| Decoder.Decode | Emulator/core/decoder.py:53-74 | every decoded instruction is 1, 2 or 3 bytes long, and an unknown byte decodes to exactly ('UNKNOWN', {}, 1) |
| Decoder.DecodeSpecialOpcode | Emulator/core/decoder.py:81-113 | a family with sub-types decodes to 1, 2 or 3 bytes, and one that misses its sub-type table is ('UNKNOWN', {}, 1) |
| Decoder.RegisterName | Emulator/core/decoder.py:169-172 | codes 0 to 3 are named A to D, and any other code R followed by the code's decimal text |
| Decoder.RegisterBits | Emulator/core/decoder.py:87-121 | the register field, the top two bits of the upper nibble, is the byte's top two bits |
| Decoder.LiteralOpcodes | Emulator/core/decoder.py:11-79 | 0x00, 0x10, 0x20 and 0xFF are NOP, OUT, HLT and RST, one byte with no operands |
| Decoder.IncDecFamily | Emulator/core/decoder.py:27-89 | low nibble 3 is INC for sub-type 2, DEC for sub-type 3, else unknown; one byte, with the register operand |
| Decoder.LoadStoreFamily | Emulator/core/decoder.py:31-95 | low nibble 4 is LDI, LDM or SAV for sub-types 0, 1 and 2, else unknown; two bytes, with the register operand |
| Decoder.NotCmiFamilies | Emulator/core/decoder.py:45-111 | low nibbles 0xA and 0xC are NOT (one byte) and CMI (two bytes) for sub-type 0, else unknown |
| Decoder.JumpFamily | Emulator/core/decoder.py:36-99 | low nibble 5 is JMP, JMZ, JNZ, JMC, JME, JNG or JML for upper nibbles 0 to 6, three bytes; a higher nibble is unknown |
| Decoder.PlainFamilies | Emulator/core/decoder.py:16-126 | the 4-bit opcodes decode to one byte with source register = top two bits and destination = the next two |
| Decoder.LowNibbleZeroIsNop | Emulator/core/decoder.py:12-126 | a byte with low nibble 0 other than 0x00, 0x10 and 0x20 hits key 0 of the opcode table and decodes as a one-byte NOP with register operands |
| Decoder.UnknownIff | Emulator/core/decoder.py:53-113 | a byte is unknown exactly when its family misses its sub-type, its low nibble is 0xD or 0xE, or it is 0x?F other than 0xFF |
| Decoder.OneRegisterOperands | Emulator/core/decoder.py:85-111 | every one-register instruction carries exactly the register operand |
| Decoder.TwoRegisterOperands | Emulator/core/decoder.py:115-126 | every two-register instruction carries exactly source and destination and is one byte |
| Decoder.JumpOperands | Emulator/core/decoder.py:97-99 | a jump carries no operands from decoding and is three bytes |
| Decoder.OtherFamilies | Emulator/core/decoder.py:53-126 | each kind of instruction comes from its own low-nibble families |
| Decoder.EntryAt | Emulator/core/decoder.py:140-164 | the entry at pc records pc, the decoded mnemonic and raw bytes that start with the instruction byte |
| Decoder.DecodeAt | Emulator/core/decoder.py:140-164 | one step of the program walk builds the entry at pc |
| Decoder.WalkAppend | Emulator/core/decoder.py:133-167 | the walk from pc is the entry at pc followed by the walk from pc + size |
| Decoder.DecodeProgram | Emulator/core/decoder.py:128-167 | the decoded program is the walk from the start pc |
| Decoder.WalkStart | Emulator/core/decoder.py:136 | the walk is empty exactly when the start is past the data, and otherwise starts at the start pc |
| Decoder.WalkEntry | Emulator/core/decoder.py:136-165 | every entry lies inside the data and is the entry decoded at its own address |
| Decoder.WalkStep | Emulator/core/decoder.py:165 | each next address is the previous address plus the previous instruction's size |
| Decoder.WalkEnd | Emulator/core/decoder.py:136-165 | the last entry's instruction reaches the end of the data |
| Decoder.AddressesIncrease | Emulator/core/decoder.py:165 | entry addresses strictly increase |
| Cpu.TwoRegister | Emulator/core/cpu.py:163-242 | a two-register instruction raises exactly when one of the two operand keys the handler reads is missing; otherwise only registers and flags change |
| Cpu.RegisterPair | Emulator/core/cpu.py:163-242 | a two-register instruction on present keys changes only registers and flags, never the RAM |
| Cpu.OneRegister | Emulator/core/cpu.py:177-248 | a one-register instruction raises exactly when the decoder gave no register operand; otherwise the control state is kept |
| Cpu.ControlSpec | Emulator/core/cpu.py:146-275 | NOP, HLT, OUT, RST and the jumps keep the ROM |
| Cpu.PerformSpec | Emulator/core/cpu.py:90-128 | a handler that does not raise keeps the ROM |
| Cpu.PerformRaisesIff | Emulator/core/cpu.py:90-143 | a handler raises exactly when the operand keys it reads are missing; a non-raising handler other than the jumps, HLT and RST keeps PC, halted, running, counters and the display latch |
| Cpu.ExecuteWith | Emulator/core/cpu.py:88-143 | executing an instruction keeps the ROM |
| Cpu.ControlExecutes | Emulator/core/cpu.py:134-138 | after NOP, OUT or RST the PC advances by the size; after a jump or HLT it does not; execution succeeds |
| Cpu.OneRegisterExecutes | Emulator/core/cpu.py:134-138 | a one-register instruction with its operand succeeds and advances the PC by its size |
| Cpu.TwoRegisterRaises | Emulator/core/cpu.py:140-143 | a two-register instruction whose keys are missing only sets halted and fails |
| Cpu.ExecuteRaised | Emulator/core/cpu.py:140-143 | any raising handler only sets halted and fails |
| Cpu.ExecuteHandledBy | Emulator/core/cpu.py:90-138 | a non-raising handler succeeds, followed by the PC advance except for jumps and HLT |
| Cpu.ExecuteOutcome | Emulator/core/cpu.py:90-143 | for a known opcode, `execute` halts and fails when the handler raises, and otherwise succeeds with the handler's state, advanced by the instruction size except after a jump or HLT |
| Cpu.TwoRegisterExecutes | Emulator/core/cpu.py:134-138 | a two-register instruction with both keys present succeeds and advances the PC by its size |
| Cpu.TwoRegisterPerformed | Emulator/core/cpu.py:163-242 | a two-register handler given both keys performs the operation on the register codes they hold |
| Cpu.StepWith | Emulator/core/cpu.py:67-86 | a step keeps the ROM |
| Cpu.StepGlue | Emulator/core/cpu.py:67-86 | a step is fetch, decode and execute, with both counters raised on success |
| Cpu.StepInRom | Emulator/core/cpu.py:57-86 | inside the ROM, a step executes the byte at the PC with the instruction register set to it |
| Cpu.RunLoop | Emulator/core/cpu.py:295-298 | the run loop keeps the ROM |
| Cpu.RunLoopUnfold | Emulator/core/cpu.py:295-298 | while running, not halted and under the limit, the loop steps and counts on success and stops on failure |
| Cpu.Cpu8Bit.constructor | Emulator/core/cpu.py:14-34 | a new CPU has zeroed components, an empty ROM, signed mode on and all counters 0 |
| Cpu.Cpu8Bit.Reset | Emulator/core/cpu.py:36-50 | reset clears registers, RAM, flags, PC, IR, halted, running, the display and counters, and keeps ROM and signed mode |
| Cpu.Cpu8Bit.ResetComponents | Emulator/core/cpu.py:38-40 | the components are reset and nothing else changes |
| Cpu.Cpu8Bit.ClearControl | Emulator/core/cpu.py:42-50 | the CPU's own fields are cleared and signed mode is kept |
| Cpu.Cpu8Bit.LoadProgram | Emulator/core/cpu.py:52-55 | a start inside the ROM loads the data and resets; a start past it fails before anything changes |
| Cpu.Cpu8Bit.Fetch | Emulator/core/cpu.py:57-65 | past the ROM the CPU halts and fetches 0; inside it the byte at the PC is fetched into the instruction register |
| Cpu.Cpu8Bit.GetNextByte | Emulator/core/cpu.py:277-282 | the ROM byte after the PC, or 0 past the ROM |
| Cpu.Cpu8Bit.GetJumpAddress | Emulator/core/cpu.py:284-288 | the next byte shifted by eight, OR the byte after it |
| Cpu.Cpu8Bit.GetImmediate | Emulator/core/cpu.py:196-246 | the immediate operand if the decoder gave one, else the next ROM byte |
| Cpu.Cpu8Bit.ExecuteTwoRegister | Emulator/core/cpu.py:163-242 | the two-register handler raises exactly as its specification says, and otherwise the state becomes the specified one |
| Cpu.Cpu8Bit.ExecutePair | Emulator/core/cpu.py:163-242 | ADD, SUB, MOV, AND, OR, XOR and CMP on register codes, as specified |
| Cpu.Cpu8Bit.AluBinary | Emulator/core/cpu.py:167-229 | the ALU result and flags of a binary instruction |
| Cpu.Cpu8Bit.AluUnary | Emulator/core/cpu.py:180-235 | the ALU result and flags of INC, DEC and NOT |
| Cpu.Cpu8Bit.ExecuteOneRegister | Emulator/core/cpu.py:177-248 | the one-register handler raises exactly as specified, and otherwise the state becomes the specified one |
| Cpu.Cpu8Bit.ExecuteUnary | Emulator/core/cpu.py:177-236 | INC, DEC and NOT of the register, written back |
| Cpu.Cpu8Bit.ExecuteLdi | Emulator/core/cpu.py:194-197 | the immediate is written to the register |
| Cpu.Cpu8Bit.ExecuteLdm | Emulator/core/cpu.py:199-203 | the RAM byte at the immediate address is written to the register |
| Cpu.Cpu8Bit.ExecuteSav | Emulator/core/cpu.py:205-209 | the register is written to RAM at the immediate address |
| Cpu.Cpu8Bit.ExecuteCmi | Emulator/core/cpu.py:244-248 | the flags of register minus immediate |
| Cpu.Cpu8Bit.ExecuteJump | Emulator/core/cpu.py:250-275 | the PC goes to the target when the condition holds, else forward by 3 |
| Cpu.JumpTaken | Emulator/core/cpu.py:252-275 | once the target is fixed (the "address" operand, else the address in the next two ROM bytes), the PC goes there when the condition holds and forward by 3 otherwise, nothing else changing |
| Cpu.Cpu8Bit.JumpTo | Emulator/core/cpu.py:272-273 | the PC becomes the target and nothing else in the CPU changes |
| Cpu.Cpu8Bit.Perform | Emulator/core/cpu.py:90-128 | dispatch to the handler, raising exactly as specified |
| Cpu.Cpu8Bit.ExecuteControl | Emulator/core/cpu.py:91-161 | NOP, HLT, OUT, RST and the jumps, as specified |
| Cpu.Cpu8Bit.SetOutput | Emulator/core/cpu.py:154-157 | OUT latches register A and enables the display |
| Cpu.Cpu8Bit.Execute | Emulator/core/cpu.py:88-143 | execution matches its specification, unknown instructions included |
| Cpu.Cpu8Bit.ExecuteHandled | Emulator/core/cpu.py:90-143 | execution of a known instruction matches its specification |
| Cpu.Cpu8Bit.Advance | Emulator/core/cpu.py:131-136 | the PC moves forward by the given size |
| Cpu.Cpu8Bit.Halt | Emulator/core/cpu.py:142-152 | only halted is set |
| Cpu.Cpu8Bit.SetRunning | Emulator/core/cpu.py:292-300 | only running changes |
| Cpu.Cpu8Bit.CountInstruction | Emulator/core/cpu.py:82-84 | both counters go up by one |
| Cpu.Cpu8Bit.Step | Emulator/core/cpu.py:67-86 | a step matches its specification |
| Cpu.Cpu8Bit.Run | Emulator/core/cpu.py:290-301 | a run matches its specification |
| CpuProperties.HaltedStepIsNoOp | Emulator/core/cpu.py:69-70 | a halted CPU's step changes nothing and fails |
| CpuProperties.FetchPastRomRunsNop | Emulator/core/cpu.py:57-86 | a step past the ROM halts, then executes the fetched 0 as a counted NOP, advancing the PC by one |
| CpuProperties.UnknownAdvancesByOne | Emulator/core/cpu.py:129-132 | an unknown byte moves the PC by one, fails, and is not counted |
| CpuProperties.TwoRegisterAlwaysHalts | Emulator/core/cpu.py:140-165 | with the keys the CPU reads, every two-register instruction halts the CPU and fails, changing nothing else |
| CpuProperties.HltStops | Emulator/core/cpu.py:69-152 | HLT succeeds without moving the PC, and the next step does nothing |
| CpuProperties.RstRestartsAtOne | Emulator/core/cpu.py:134-161 | RST resets the CPU and then advances the PC to 1, with one instruction counted |
| CpuProperties.OtherInstructionsAdvance | Emulator/core/cpu.py:88-138 | NOP, OUT and the one-register instructions succeed, move the PC by their size and count once |
| CpuProperties.JumpExecutes | Emulator/core/cpu.py:127-135 | a jump's execution is its handler alone, without the PC advance |
| CpuProperties.JumpTarget | Emulator/core/cpu.py:250-288 | with no address operand, a jump goes to the two following ROM bytes as an address when taken, else forward by 3 |
| CpuProperties.JumpsLandOrSkip | Emulator/core/cpu.py:250-275 | a jump step succeeds, changes only the PC and counters, and lands on the target or 3 bytes on |
| CpuProperties.JumpStep | Emulator/core/cpu.py:67-275 | a jump step is the counted jump handler |
| CpuProperties.JumpConditions | Emulator/core/cpu.py:257-270 | JMP always jumps; JMZ and JME on zero; JNZ on not zero; JMC on carry; JNG on zero or negative; JML on negative and not zero |
| CpuProperties.StepSucceedsIff | Emulator/core/cpu.py:67-143 | a step in the ROM succeeds exactly when the instruction is known and not a two-register one |
| CpuProperties.DecoderKeysTwoRegisterRuns | Emulator/core/cpu.py:163-175 | read with the decoder's keys, a two-register instruction executes on the register fields and advances by one |
| CpuProperties.PairAdds | Emulator/core/cpu.py:163-168 | ADD writes (destination + source) mod 256 to the destination and sets carry on overflow |
| CpuProperties.DecoderKeysStepSucceedsIff | Emulator/core/cpu.py:67-143 | read with the decoder's keys, a step succeeds exactly when the instruction is known |
| CpuProperties.RunLoopBounds | Emulator/core/cpu.py:293-298 | the executed count never drops and does not pass the limit |
| CpuProperties.RunBounded | Emulator/core/cpu.py:290-301 | a run executes between 0 and the limit instructions, none for a limit of 0 or less, and ends not running with the ROM kept |
| CpuProperties.HaltedDoesNotRun | Emulator/core/cpu.py:295 | a halted CPU runs nothing |
| CpuProperties.RstStopsRun | Emulator/core/cpu.py:159-295 | RST ends a run after one instruction, because reset clears running |
| Helpers.TwoComplement | Emulator/utils/helpers.py:21-25 | the 8-bit pattern of a value is the value mod 256, for negative values too |
| Helpers.FromTwoComplement | Emulator/utils/helpers.py:27-31 | the signed reading has the same pattern mod 256, and a byte reads as -128 to 127 |
| Helpers.SignedRoundTrip | Emulator/utils/helpers.py:21-31 | a value from -128 to 127 survives encoding and decoding |
| Helpers.PatternRoundTrip | Emulator/utils/helpers.py:21-31 | a byte survives decoding and encoding |
| Helpers.NegativeIffBit7 | Emulator/utils/helpers.py:27-31 | a byte reads as negative exactly when bit 7 is set |
| Helpers.Clamp | Emulator/utils/helpers.py:17-19 | a byte is kept, below 0 gives 0, above 255 gives 255 |
| Helpers.ValidRegisterCode | Emulator/utils/helpers.py:130-132 | a code is valid exactly when the register file maps it to a register |
| Helpers.DefaultBoundIsRom | Emulator/utils/helpers.py:134-136 | with the default bound an address is valid exactly when it lies in the ROM |
| Helpers.FormatFlags | Emulator/utils/helpers.py:138-144 | three characters, Z, C and N for set flags and '-' for clear or missing ones |
| Helpers.FormatAluFlags | Emulator/utils/helpers.py:138-144 | formatting the ALU's flags shows each one; an empty dictionary gives "---" |
| Helpers.InstructionCycles | Emulator/utils/helpers.py:54-66 | every count is 1 to 4, and an unknown name gives 1 |
| Helpers.CyclesCoverDecoder | Emulator/utils/helpers.py:59-65 | the cycle table has exactly the decoder's mnemonics |
| Helpers.JumpCycles | Emulator/utils/helpers.py:64 | every jump takes 3 cycles |
| Helpers.MemoryTransferCycles | Emulator/utils/helpers.py:63 | exactly LDM and SAV take 4 cycles |
| Helpers.WithoutUnderscores | Emulator/utils/helpers.py:42-50 | the digit grouping `int()` strips leaves no underscore |
| Helpers.ParseNumber | Emulator/utils/helpers.py:33-52 | a failed parse gives (0, False) |
| Helpers.ReadNumber | Emulator/utils/helpers.py:40-52 | a failed parse of the cleaned text gives (0, False) |
| Helpers.DigitChar | Emulator/utils/helpers.py:42-50 | every digit character reads back as its value |
| Helpers.Numeral | Emulator/utils/helpers.py:42-50 | a written number has at least one digit |
| Helpers.NumeralChars | Emulator/utils/helpers.py:38-50 | a written number is upper-case digits of its base with no white space |
| Helpers.NumeralValueSnoc | Emulator/utils/helpers.py:42-50 | one more digit multiplies by the base and adds the digit |
| Helpers.NumeralValueOfNumeral | Emulator/utils/helpers.py:42-50 | reading a written number gives the number back |
| Helpers.StripKeeps | Emulator/utils/helpers.py:38 | stripping text without outer white space keeps it |
| Helpers.DigitsHaveNoUnderscore | Emulator/utils/helpers.py:42-50 | digits are left alone by the underscore removal |
| Helpers.DigitsAccepted | Emulator/utils/helpers.py:42-50 | plain digits are accepted by `int()` with their value |
| Helpers.NumeralAccepted | Emulator/utils/helpers.py:42-50 | a written number is accepted by `int()` with its value, and looks like no prefix |
| Helpers.ParseIntOfDigits | Emulator/utils/helpers.py:42-50 | unsigned digits parse to their value |
| Helpers.ParseIntOfNegative | Emulator/utils/helpers.py:50 | a minus sign negates the value |
| Helpers.ParseIntOfPrefixed | Emulator/utils/helpers.py:41-44 | `int()` with base 16 or 2 accepts its own 0X or 0B prefix |
| Helpers.UpperOfPrefixed | Emulator/utils/helpers.py:38 | upper-casing leaves a written number alone |
| Helpers.StripUpperPrefixed | Emulator/utils/helpers.py:38 | cleaning a prefixed number upper-cases only the prefix |
| Helpers.ReadPrefixed | Emulator/utils/helpers.py:41-44 | 0X and 0B numbers read as hex and binary |
| Helpers.ReadSigil | Emulator/utils/helpers.py:45-48 | $ and % numbers read as hex and binary |
| Helpers.ReadDecimal | Emulator/utils/helpers.py:49-50 | other numbers read as decimal, with an optional minus sign |
| Helpers.UpperOfPrefixes | Emulator/utils/helpers.py:38-48 | upper-casing turns 0x and 0b into the prefixes tested and keeps the sigils |
| Helpers.ReadPrefixedNumeral | Emulator/utils/helpers.py:41-44 | a 0X or 0B written number reads back as its value |
| Helpers.ReadSigilNumeral | Emulator/utils/helpers.py:45-48 | a $ or % written number reads back as its value |
| Helpers.HexPrefixRoundTrip | Emulator/utils/helpers.py:33-52 | "0x" + hex digits of n parses to (n, True) |
| Helpers.HexSigilRoundTrip | Emulator/utils/helpers.py:33-52 | "$" + hex digits of n parses to (n, True) |
| Helpers.BinaryPrefixRoundTrip | Emulator/utils/helpers.py:33-52 | "0b" + binary digits of n parses to (n, True) |
| Helpers.BinarySigilRoundTrip | Emulator/utils/helpers.py:33-52 | "%" + binary digits of n parses to (n, True) |
| Helpers.DecimalRoundTrip | Emulator/utils/helpers.py:33-52 | decimal digits of n parse to (n, True) |
| Helpers.NegativeRoundTrip | Emulator/utils/helpers.py:33-52 | "-" + decimal digits of n parses to (-n, True) |
| Helpers.RegisterNameReadsBack | Emulator/core/decoder.py:169-172 | the name of a code without a letter is R followed by text that `parseNumber` reads back as the code |
| Helpers.BinaryPrefixExample | Emulator/utils/helpers.py:43-44 | "0B1" is binary 1 |
| Helpers.SigilBeforeDigitsExample | Emulator/utils/helpers.py:45-46 | "$0B1" is hex 0xB1, because `int()` with base 16 does not take 0B as a prefix |
| Helpers.EmptyHexExample | Emulator/utils/helpers.py:41-52 | "0X" with no digits fails |
| Helpers.StrayLetterExample | Emulator/utils/helpers.py:49-52 | "12A" fails as decimal |
| Helpers.ThousandValue | Emulator/utils/helpers.py:50 | "1000" reads as 1000 |
| Helpers.UnderscoreExample | Emulator/utils/helpers.py:50 | "1_000" reads as 1000, as `int()` allows |
| Helpers.Last | Emulator/utils/helpers.py:180 | the last n items, all of them when there are fewer |
| Helpers.Chronological | Emulator/utils/helpers.py:154-159 | the stored items read from the oldest keep their number |
| Helpers.RecentAgrees | Emulator/utils/helpers.py:161-180 | for a count of at least 1, `get_recent` returns the last items in order, except on a wrapped buffer asked for all of it |
| Helpers.RecentZeroReturnsAll | Emulator/utils/helpers.py:166-180 | asking a non-full buffer for 0 items returns all of them |
| Helpers.RecentWrappedOutOfOrder | Emulator/utils/helpers.py:166-167 | a wrapped buffer asked for more than it holds returns storage order, not the order of adding |
| Helpers.ChronologicalFromZero | Emulator/utils/helpers.py:154-159 | a full buffer read from position 0 is in order |
| Helpers.ChronologicalAfterOverwrite | Emulator/utils/helpers.py:157-159 | an overwrite drops the oldest item and appends the new one |
| Helpers.ModWrap | Emulator/utils/helpers.py:174 | Python's % wraps a small negative index once |
| Helpers.BackwardIndex | Emulator/utils/helpers.py:173-176 | each index counted backwards from the position is a stored slot, and holds the i-th newest item |
| Helpers.LastGrows | Emulator/utils/helpers.py:176 | one more recent item is inserted at the front |
| Helpers.RecentStep | Emulator/utils/helpers.py:172-176 | each loop turn of `get_recent` puts the next older item in front |
| Helpers.LastAfterAppend | Emulator/utils/helpers.py:154-159 | adding an item shifts the window of the last n |
| Helpers.LastOfLast | Emulator/utils/helpers.py:161-180 | the last count of the last size items are the last count items |
| Helpers.CircularBuffer.constructor | Emulator/utils/helpers.py:149-152 | an empty buffer at position 0 |
| Helpers.CircularBuffer.Add | Emulator/utils/helpers.py:154-159 | append while there is room, then overwrite at the position and move it on; the buffer always holds the last size items added, in circular order |
| Helpers.RingAppend | Emulator/utils/helpers.py:155-156 | appending while there is room keeps the buffer holding the last `size` items added, in circular order from the position |
| Helpers.RingOverwrite | Emulator/utils/helpers.py:157-159 | on a full buffer, overwriting at the position and moving it on modulo the size keeps that invariant for the item just added |
| Helpers.CircularBuffer.GetRecent | Emulator/utils/helpers.py:161-180 | `get_recent` as written |
| Helpers.RecentOfFull | Emulator/utils/helpers.py:169-176 | the loop over a full buffer asked for fewer items than its size gives the last `count` items in the order they were added |
| Helpers.CircularBuffer.GetRecentInOrder | Emulator/utils/helpers.py:161-180 | for any count, the last min(count, size) items added, oldest first, so a wrapped buffer asked for more than it holds still comes back in order |
| Helpers.CircularBuffer.Clear | Emulator/utils/helpers.py:182-184 | empty buffer, position 0 |
| Loader.MessagesDistinct | Emulator/utils/loader.py:31-41 | the three issue messages differ |
| Loader.ValidateProgram | Emulator/utils/loader.py:26-43 | valid exactly when there are no issues, which is exactly when the image is non-empty, within the size and does not start with 0xFF; each failed check is listed once |
| Loader.Step | Emulator/utils/loader.py:64-71 | an estimated instruction is 1 to 3 bytes |
| Loader.NonPaddingBound | Emulator/utils/loader.py:52 | there are no more non-padding bytes than bytes |
| Loader.NonPaddingMonotone | Emulator/utils/loader.py:52 | a later start counts no more non-padding bytes |
| Loader.EstimateAtMostNonPadding | Emulator/utils/loader.py:52-73 | the estimated instruction count is at most the non-padding count |
| Loader.GetProgramInfo | Emulator/utils/loader.py:46-80 | an empty image gets the empty dictionary; otherwise the size, the non-padding count, the walk's estimate and the padding, with estimate <= non-padding <= size |
| Compiler.CleanLineIsCleaned | Compiler/Compiler.py:40-49 | a pre-processed line has no outer white space, no ';' and no lower-case letter |
| Compiler.UpperKeepsSpace | Compiler/Compiler.py:43-49 | upper-casing a character keeps it white space or not |
| Compiler.UpperTrimLeft | Compiler/Compiler.py:43-49 | upper-casing commutes with stripping on the left |
| Compiler.UpperTrimRight | Compiler/Compiler.py:43-49 | upper-casing commutes with stripping on the right |
| Compiler.UpperSplitHead | Compiler/Compiler.py:46-49 | upper-casing commutes with keeping the text before a non-letter separator |
| Compiler.UpperIdempotent | Compiler/Compiler.py:49 | upper-casing twice is upper-casing once |
| Compiler.CaseInsensitive | Compiler/Compiler.py:40-49 | a line and its upper-cased form pre-process alike, so the assembler ignores case |
| Compiler.MovByte | Compiler/Compiler.py:92-97 | the MOV byte holds opcode 1 in the low nibble, the source in bits 6-7 and the destination in bits 4-5 |
| Compiler.SingleByte | Compiler/Compiler.py:109-113 | an ADD/SUB/INC/DEC byte holds the opcode in the low nibble and the register above it |
| Compiler.MovEncoding | Compiler/Compiler.py:82-97 | MOV r1 r2 assembles to r1 * 64 + r2 * 16 + 1 |
| Compiler.MovOperandCounts | Compiler/Compiler.py:82-97 | MOV with one register is skipped, with two registers emits a byte, and fails on a non-register or another count |
| Compiler.SingleEncoding | Compiler/Compiler.py:102-113 | ADD/SUB/INC/DEC emit exactly with one register operand, as register * 16 + opcode, and fail otherwise |
| Compiler.UnknownMnemonicFails | Compiler/Compiler.py:117-118 | any other mnemonic fails |
| Compiler.NonBlankHasOpcode | Compiler/Compiler.py:73-77 | a non-blank cleaned line splits into at least one word |
| Compiler.Outcomes | Compiler/Compiler.py:72-120 | each line's outcome is the outcome of assembling that line |
| Compiler.PrependNothing | Compiler/Compiler.py:120 | prepending no bytes changes nothing |
| Compiler.PrependTwice | Compiler/Compiler.py:120 | prepending twice is prepending the joined bytes |
| Compiler.CleanLines | Compiler/Compiler.py:40-49 | one cleaned line per raw line, each the pre-processing of its raw line |
| Compiler.ErrorIsFirstFailure | Compiler/Compiler.py:62-120 | compiling fails exactly when a line fails, and the error names the first failing line, by its 1-based number and raw text |
| Compiler.OutputLength | Compiler/Compiler.py:72-120 | a successful compile emits one byte per line that is neither blank nor a skipped one-operand MOV |
| Compiler.Compiler.constructor | Compiler/Compiler.py:5-20 | the object holds the assembly text and no lines yet |
| Compiler.Compiler.PreProcess | Compiler/Compiler.py:40-49 | the raw lines are the text split at newlines, and the working lines are their cleaned forms |
| Compiler.Compiler.Compile | Compiler/Compiler.py:61-124 | the loop's result is the first-failure compile of the line outcomes |
| Compiler.Compiler.AssembleLine | Compiler/Compiler.py:73-120 | one line's loop body gives that line's outcome |
| Compiler.Compiler.CheckRegisters | Compiler/Compiler.py:83-105 | the register check passes exactly when every operand is a register name |
| Compiler.Compiler.Build | Compiler/Compiler.py:5-37 | construction runs pre-processing then compiling of the given text |
| SevenSegment.ReverseNegative | Gen7segDriver/Gen7segDriver.py:3-4 | an index from 1 to 256 gives the magnitude 256 - index, and index 0 gives -256 |
| SevenSegment.Pow10 | Gen7segDriver/Gen7segDriver.py:52-54 | a power of ten is positive |
| SevenSegment.ByteDigits | Gen7segDriver/Gen7segDriver.py:52-54 | a byte has a hundreds digit exactly when it is at least 100 and a tens or hundreds digit exactly when it is at least 10; the tens digit is 0 under a hundreds digit exactly for 100-109 and 200-209 |
| SevenSegment.PositiveCellShown | Gen7segDriver/Gen7segDriver.py:49-69 | each positive cell shows the value's decimal digit at that place, blank above its leading digit |
| SevenSegment.NegativeCellFixedShown | Gen7segDriver/Gen7segDriver.py:72-93 | the corrected negative cell shows the magnitude's digit, a minus just left of the leading digit, blank further left |
| SevenSegment.NegativeCellDiffers | Gen7segDriver/Gen7segDriver.py:85-93 | the cell as written differs from the corrected one exactly at the tens place for magnitudes 100-109 and 200-209 |
| SevenSegment.MinusInsteadOfZero | Gen7segDriver/Gen7segDriver.py:85-89 | index 151 (-105) shows a minus in the tens place where 0 belongs |
| SevenSegment.GenerateImage | Gen7segDriver/Gen7segDriver.py:7-93 | a fresh 2048-byte image whose every cell is the cell the two loops write there |
| SevenSegment.FillPositive | Gen7segDriver/Gen7segDriver.py:50-69 | one pass of the unsigned loop writes, at its index, the cell of each of the four digit places for that value, and no other byte |
| SevenSegment.FillNegative | Gen7segDriver/Gen7segDriver.py:73-93 | one pass of the signed loop writes, at its index in the upper half, the cell of each digit place for the negative value the index stands for, and no other byte |
| Dict.LookupAt | Microcode/ParseConfig.py:25-29 | looking a key up finds the first entry with that key, or nothing when no entry has it |
| Dict.LookupEntry | Microcode/ParseConfig.py:25-29 | in a dictionary with distinct keys every entry is found by its key |
| Dict.PutLookup | Microcode/ParseConfig.py:37-39 | after `d[k] = v`, k maps to v and every other key is unchanged |
| Dict.PutKeys | Microcode/ParseConfig.py:37-39 | `d[k] = v` keeps the key order, adding a new key at the end |
| Dict.PutNew | Microcode/ParseConfig.py:37-39 | storing a new key appends its entry |
| Dict.PutLast | Microcode/GenMicrocode/ParseInstruction.py:133-137 | storing again under the last key replaces its value in place |
| Dict.PutAt | Microcode/GenMicrocode/ParseInstruction.py:133-137 | storing an existing key replaces that entry where it stands |
| Dict.CopyStep | Microcode/ParseConfig.py:37-39 | copying entries one by one rebuilds the dictionary's prefix |
| Dict.PutEntries | Microcode/ParseConfig.py:37-39 | storing adds no entry other than the one stored |
| MicrocodeConfig.GetSignalIndex | Microcode/ParseConfig.py:16-30 | the loop returns the index and section of the last section naming the signal, or (-1, None) |
| MicrocodeConfig.SignalIndexMeaning | Microcode/ParseConfig.py:16-30 | the section is None exactly when no section names the signal (index -1); otherwise the index is the one in that section and no later section names the signal |
| MicrocodeConfig.ExtraOverridesInput | Microcode/ParseConfig.py:18-29 | a signal in both InputControl and Extra gets the Extra index, as the loop over sections does not stop at the first match |
| MicrocodeConfig.GetAllSignalIndex | Microcode/ParseConfig.py:33-40 | the copied dictionary equals the section, and is empty when PinConfig or the section is missing |
| MicrocodeConfig.LookupIsEntry | Microcode/ParseConfig.py:25-29 | a found value comes from an entry with that key |
| MicrocodeConfig.PinNames | Microcode/ParseConfig.py:46-49 | one pin list per virtual-pin section |
| MicrocodeConfig.GetAllVirtualPins | Microcode/ParseConfig.py:43-50 | the pin names of each section in order, empty when VirtualPins is missing |
| MicrocodeConfig.GetAllInstructions | Microcode/ParseConfig.py:53-56 | the Instructions list, empty when InsConfig or Instructions is missing |
| TruthTable.BitHalf | Microcode/GenMicrocode/ParseInstruction.py:154-155 | bit k + 1 of v is bit k of v / 2 |
| TruthTable.SetBitReads | Microcode/GenMicrocode/ParseInstruction.py:154-155 | clearing then or-ing bit i changes bit i to the given bit and no other bit |
| TruthTable.SetBitBound | Microcode/GenMicrocode/ParseInstruction.py:147-155 | setting a bit below n keeps a value below 2^n |
| TruthTable.SetBitSame | Microcode/GenMicrocode/ParseInstruction.py:154-155 | setting a bit to its own value changes nothing |
| TruthTable.SetBitTwice | Microcode/GenMicrocode/ParseInstruction.py:154-155 | the last setting of a bit wins |
| TruthTable.BitsDetermine | Microcode/GenMicrocode/ParseInstruction.py:149-159 | two values below 2^n with the same n bits are equal |
| TruthTable.Reversed | Microcode/GenMicrocode/ParseInstruction.py:144-146 | the reversal loop yields the cells last first |
| TruthTable.ValueOfBits | Microcode/GenMicrocode/ParseInstruction.py:162-170 | the value fits the cells, and its bit for cell k (counted from the right end) is that cell's bit, 1 only for "1" |
| TruthTable.GetValueFromList | Microcode/GenMicrocode/ParseInstruction.py:162-170 | the loop computes the value of the cells read as binary, 'X' as 0 |
| TruthTable.ValueIsPossible | Microcode/GenMicrocode/ParseInstruction.py:142-170 | the value of the cells is one of the values matching them |
| TruthTable.Shift | Microcode/GenMicrocode/ParseInstruction.py:149-159 | appending a bit keeps the list length |
| TruthTable.ShiftMembers | Microcode/GenMicrocode/ParseInstruction.py:149-159 | v is in the shifted list exactly when its low bit is the appended bit and v / 2 was in the list |
| TruthTable.ShiftDistinct | Microcode/GenMicrocode/ParseInstruction.py:157-158 | appending a bit keeps values distinct |
| TruthTable.MatchesSnoc | Microcode/GenMicrocode/ParseInstruction.py:152-156 | a value matches the cells exactly when its upper part matches the front and its low bit matches a fixed last cell |
| TruthTable.ExpandLength | Microcode/GenMicrocode/ParseInstruction.py:142-159 | there are 2^(number of free cells) matching values |
| TruthTable.ExpandDistinct | Microcode/GenMicrocode/ParseInstruction.py:157-158 | the matching values are distinct |
| TruthTable.ExpandMembers | Microcode/GenMicrocode/ParseInstruction.py:142-159 | a value is listed exactly when it matches the cells |
| TruthTable.DistinctCounts | Microcode/GenMicrocode/ParseInstruction.py:157-158 | a list without repeats holds each value once |
| TruthTable.SameValuesSameLength | Microcode/GenMicrocode/ParseInstruction.py:157-158 | two lists without repeats holding the same values have the same length |
| TruthTable.ForceBit | Microcode/GenMicrocode/ParseInstruction.py:153-156 | a "0" or "1" cell sets its bit, any other cell leaves the value |
| TruthTable.ForceFixed | Microcode/GenMicrocode/ParseInstruction.py:150-156 | after the inner loop each bit is the fixed cell's bit or the trial value's bit, and the value stays below 2^n |
| TruthTable.ForcedBits | Microcode/GenMicrocode/ParseInstruction.py:144-156 | the same fact indexed by the cells in written order |
| TruthTable.MatchingKept | Microcode/GenMicrocode/ParseInstruction.py:149-158 | a trial value that already matches comes out unchanged |
| TruthTable.ZeroForced | Microcode/GenMicrocode/ParseInstruction.py:149-156 | trial value 0 comes out as the value of the cells |
| TruthTable.GetPossibleValueCombinations | Microcode/GenMicrocode/ParseInstruction.py:142-159 | the loop lists, without repeats, exactly the values matching the cells, 2^(free cells) of them, the first being the value with every 'X' at 0 |
| InstructionText.NonEmptyStripped | Microcode/GenMicrocode/ParseInstruction.py:101 | the kept cells are non-empty and no more than the pieces |
| InstructionText.NameFromFirst | Microcode/GenMicrocode/ParseInstruction.py:84-89 | the name comes from the first line holding "INSTRUCTION:", or is None when no line does |
| InstructionText.FindName | Microcode/GenMicrocode/ParseInstruction.py:84-89 | the loop finds that name, and a name exactly when some line holds the marker |
| Autogen.ScanColumn | Microcode/CreateAutogenIns.py:185-203 | the inner loop over the rows gives the scan of the column: an index, 0 for every pin, nothing, or the error a short row or an unconfigured name raises |
| Autogen.FirstMark | Microcode/CreateAutogenIns.py:186-196 | the first row whose cell is not "0" lies between the start and the end |
| Autogen.ScanAfterFound | Microcode/CreateAutogenIns.py:189-194 | once the column is marked found, the rest of the scan adds nothing |
| Autogen.ColumnOutcome | Microcode/CreateAutogenIns.py:184-203 | a column adds 0 to every pin when all its cells are "0", nothing when its first other cell is not "1", and otherwise that row's pin index (KeyError when unconfigured); a later "1" is ignored |
| Autogen.FirstHighWins | Microcode/CreateAutogenIns.py:192-194 | with two "1" rows in a column the first row's index is taken, although the warning says the last one |
| Autogen.OutcomesKeepError | Microcode/CreateAutogenIns.py:184-203 | once a column raises, the whole run raises that error |
| Autogen.PinLines | Microcode/CreateAutogenIns.py:178-180 | one line per virtual pin |
| Autogen.ShiftStep | Microcode/CreateAutogenIns.py:199-200 | shifting right once more divides by the next power of two |
| Autogen.TrackStep | Microcode/CreateAutogenIns.py:197-203 | one more column extends each pin line by that column's piece |
| Autogen.AppendColumn | Microcode/CreateAutogenIns.py:195-203 | appending a column's bits to the pin dictionary gives the pin lines of one more column |
| Autogen.ExtendLine | Microcode/CreateAutogenIns.py:197-199 | for one pin, its line is the one looked up, and it is replaced, at the same position in the dictionary, by itself with the column's bit for that pin |
| Autogen.NothingKeepsLines | Microcode/CreateAutogenIns.py:185-203 | a column that appends nothing leaves every pin line as it was |
| Autogen.AutogenSignalLines | Microcode/CreateAutogenIns.py:176-245 | the function returns the pin lines of every column of the rows; a missing pin section is a KeyError, no rows an IndexError |
| Autogen.PinsDistinct | Microcode/ParseConfig.py:46-49 | the pins of a virtual-pin section do not repeat |
| Autogen.TrackLength | Microcode/CreateAutogenIns.py:197-203 | every pin line has one entry per column that adds one, so all have the same length |
| Autogen.TrackAt | Microcode/CreateAutogenIns.py:197-203 | a column's entry sits at the same position of every pin line: bit k of the index on pin k, or 0 |
| Autogen.EncodedValue | Microcode/CreateAutogenIns.py:197-200 | across n pins, least significant first, an encoded column spells the pin index mod 2^n |
| Autogen.Rows | Microcode/CreateAutogenIns.py:105-107 | one row per line |
| Autogen.SortLinesSnoc | Microcode/CreateAutogenIns.py:105-134 | sorting one more row is one more step after the earlier rows, unless they raised |
| Autogen.OrderKeepsError | Microcode/CreateAutogenIns.py:120-123 | once a row raises, later rows change nothing |
| Autogen.SortRow | Microcode/CreateAutogenIns.py:106-134 | one loop turn sorts the row by its type and its signal's section |
| Autogen.SortRows | Microcode/CreateAutogenIns.py:105-134 | the loop over the lines gives the sorted lists or the first error |
| Autogen.SortedRows | Microcode/CreateAutogenIns.py:119-132 | the input control list holds only "O" rows whose signal is in InputControl, the output control list only "O" rows whose signal is in OutputControl |
| Autogen.ControlPlacement | Microcode/CreateAutogenIns.py:119-132 | a row placed among the control rows is an "O" row with a signal name, placed by the section of that signal |
| Autogen.OtherLines | Microcode/CreateAutogenIns.py:106-134 | a row is kept as an other line, with its line and index, exactly when it is placed so |
| Autogen.SortFailsOnMissing | Microcode/CreateAutogenIns.py:120-123 | sorting raises exactly when some "O" row names a signal no section configures |
| Autogen.AutogenInstruction | Microcode/CreateAutogenIns.py:89-169 | one table's loop body gives the name, the sorted lists and the input and output pin lines, or the first error |
| Autogen.CreateAutogenInstructions | Microcode/CreateAutogenIns.py:81-169 | every table gives its lines, or the error of the first table that raises, with all earlier tables fine |
| MicrocodeTables.CellRows | Microcode/GenMicrocode/ParseInstruction.py:100-101 | one cell row per line |
| MicrocodeTables.Names | Microcode/GenMicrocode/ParseInstruction.py:108-113 | one name per row |
| MicrocodeTables.DataOf | Microcode/GenMicrocode/ParseInstruction.py:107-112 | one data row per row |
| MicrocodeTables.ParseRow | Microcode/GenMicrocode/ParseInstruction.py:101-127 | one turn raises IndexError exactly for a nameless "I" row or a nameless "O" row a chip keeps; otherwise it adds the row and counts one more output row |
| MicrocodeTables.InputsSnoc | Microcode/GenMicrocode/ParseInstruction.py:105-109 | one more row adds itself to the inputs or the outputs by its type |
| MicrocodeTables.ChipRowsSnoc | Microcode/GenMicrocode/ParseInstruction.py:111-127 | a new output row goes to the chip its position divided by eight names |
| MicrocodeTables.NamesSnoc | Microcode/GenMicrocode/ParseInstruction.py:107-113 | one more row adds its name and its data |
| MicrocodeTables.ChipListsSnoc | Microcode/GenMicrocode/ParseInstruction.py:111-123 | one more output row adds its name and data to one chip's lists |
| MicrocodeTables.CollectSnoc | Microcode/GenMicrocode/ParseInstruction.py:100-127 | the lists after one more row are one step on the lists before it |
| MicrocodeTables.RowKept | Microcode/GenMicrocode/ParseInstruction.py:100-127 | the loop's counters and lists stay the lists of the rows so far |
| MicrocodeTables.ShortRowRaises | Microcode/GenMicrocode/ParseInstruction.py:107-113 | a table with a short row parses to IndexError |
| MicrocodeTables.CollectEmpty | Microcode/GenMicrocode/ParseInstruction.py:91-98 | before any row, every list is empty, with one empty list per chip |
| MicrocodeTables.SplitLine | Microcode/GenMicrocode/ParseInstruction.py:101 | splitting a line gives its cell row |
| MicrocodeTables.ParseLine | Microcode/GenMicrocode/ParseInstruction.py:100-127 | one line either raises, as the whole table does, or keeps the loop's state correct |
| MicrocodeTables.AllKept | Microcode/GenMicrocode/ParseInstruction.py:100-127 | after the last line the lists are the parsed table |
| MicrocodeTables.ParseRows | Microcode/GenMicrocode/ParseInstruction.py:91-137 | the loop gives the parsed table: inputs in order, outputs dealt eight to a chip, or IndexError |
| MicrocodeTables.OutputRowPlace | Microcode/GenMicrocode/ParseInstruction.py:111-127 | output row k is row k mod 8 of chip k / 8 |
| MicrocodeTables.ChipsHoldPrefix | Microcode/GenMicrocode/ParseInstruction.py:111-127 | the chips together hold the first 8 × chips output rows in order |
| MicrocodeTables.ChipRowsAtMostEight | Microcode/GenMicrocode/ParseInstruction.py:124-127 | no chip gets more than eight rows |
| MicrocodeTables.ParsedChipsSmall | Microcode/GenMicrocode/ParseInstruction.py:91-127 | a parsed table has one list per chip, each of at most eight rows |
| MicrocodeTables.NamelessInputRaises | Microcode/GenMicrocode/ParseInstruction.py:105-108 | a row of "I" alone raises IndexError |
| MicrocodeTables.DroppedRowNotRead | Microcode/GenMicrocode/ParseInstruction.py:111-123 | a row of "O" alone past the last chip is not read, so it does not raise |
| MicrocodeBanks.Columns | Microcode/GenMicrocode/ParseInstruction.py:199-203 | turning rows into columns fails only with IndexError |
| MicrocodeBanks.Transpose | Microcode/GenMicrocode/ParseInstruction.py:199-216 | the nested loops give the columns as far as the first row reaches, or IndexError for no rows or a shorter row |
| MicrocodeBanks.ColumnsTwice | Microcode/GenMicrocode/ParseInstruction.py:199-203 | turning a rectangular matrix around twice gives it back |
| MicrocodeBanks.ColumnCells | Microcode/GenMicrocode/ParseInstruction.py:199-203 | cell j of column i is cell i of row j |
| MicrocodeBanks.CellIsLast | Microcode/GenMicrocode/ParseInstruction.py:226-228 | the last write covering a byte decides it |
| MicrocodeBanks.CellUntouched | Microcode/GenMicrocode/ParseInstruction.py:181-183 | a byte no write covers stays 0 |
| MicrocodeBanks.CellBounded | Microcode/GenMicrocode/ParseInstruction.py:226-228 | when every written value is below a bound, so is every byte |
| MicrocodeBanks.ErrorOf | Microcode/GenMicrocode/ParseInstruction.py:194-238 | an error is reported exactly when the writes raise, and it is their error |
| MicrocodeBanks.ColumnWritesKeepError | Microcode/GenMicrocode/ParseInstruction.py:221-238 | once a column raises, later columns change nothing |
| MicrocodeBanks.ChipsWritesKeepError | Microcode/GenMicrocode/ParseInstruction.py:209-238 | once a chip raises, later chips change nothing |
| MicrocodeBanks.AllWritesKeepError | Microcode/GenMicrocode/ParseInstruction.py:194-238 | once a table raises, later tables change nothing |
| MicrocodeBanks.BoundedAppend | Microcode/GenMicrocode/ParseInstruction.py:226-228 | two logs of bounded values joined stay bounded |
| MicrocodeBanks.ColumnWritesBytes | Microcode/GenMicrocode/ParseInstruction.py:221-228 | a chip of at most eight rows writes values below 256 |
| MicrocodeBanks.ChipWritesBytes | Microcode/GenMicrocode/ParseInstruction.py:209-228 | one chip's writes are bytes |
| MicrocodeBanks.ChipsWritesBytes | Microcode/GenMicrocode/ParseInstruction.py:209-228 | every chip's writes are bytes |
| MicrocodeBanks.AllWritesBytes | Microcode/GenMicrocode/ParseInstruction.py:194-238 | the writes of every stored table are bytes |
| MicrocodeBanks.BanksAreBytes | Microcode/GenMicrocode/ParseInstruction.py:173-256 | every byte of every bank is below 256 |
| MicrocodeBanks.WriteColumn | Microcode/GenMicrocode/ParseInstruction.py:221-238 | one column writes its value at every matched address, or reports the error of a short chip, a missing name or an address out of the bank |
| MicrocodeBanks.WriteChip | Microcode/GenMicrocode/ParseInstruction.py:209-238 | one chip's columns, or the first error, and the banks hold the log so far |
| MicrocodeBanks.WriteTable | Microcode/GenMicrocode/ParseInstruction.py:196-238 | one table's writes on every chip, or the first error |
| MicrocodeBanks.ChipsWritesStep | Microcode/GenMicrocode/ParseInstruction.py:209-238 | one more chip that writes without error adds its writes after those of the chips before it |
| MicrocodeBanks.ZeroBanks | Microcode/GenMicrocode/ParseInstruction.py:175-183 | fresh banks, one per chip, all zero |
| MicrocodeBanks.Generate | Microcode/GenMicrocode/ParseInstruction.py:173-256 | fresh banks that hold the writes of every stored table, or the first error; the signal names returned are those of the last table |
| MicrocodeGenerator.Found | Microcode/GenMicrocode/ParseInstruction.py:84-89 | one name per text |
| MicrocodeGenerator.Tables | Microcode/GenMicrocode/ParseInstruction.py:91-127 | one parsed table per text |
| MicrocodeGenerator.RunKeepsError | Microcode/GenMicrocode/ParseInstruction.py:75-137 | once a table raises, later tables change nothing |
| MicrocodeGenerator.ReadTables | Microcode/GenMicrocode/ParseInstruction.py:81-127 | the name search and the row loop of every text give each text's name and parsed table |
| MicrocodeGenerator.ReadTable | Microcode/GenMicrocode/ParseInstruction.py:81-131 | the name search and the row loop of one text give the name that text carries and its parsed table |
| MicrocodeGenerator.StoreTables | Microcode/GenMicrocode/ParseInstruction.py:133-137 | the loop stores each table under its name until the first exception |
| MicrocodeGenerator.ParseInstructions.constructor | Microcode/GenMicrocode/ParseInstruction.py:9-72 | the generator keeps its chip and tables, with an empty dictionary |
| MicrocodeGenerator.ParseInstructions.ParseEachInstruction | Microcode/GenMicrocode/ParseInstruction.py:75-137 | the dictionary and the exception are those of parsing and storing every table in order |
| MicrocodeGenerator.ParseInstructions.GenerateAddressDataMap | Microcode/GenMicrocode/ParseInstruction.py:173-256 | fresh banks of the chip's count and size that hold the writes of the dictionary, or the error; the signal names of the last table, None for an empty dictionary |
| MicrocodeGenerator.RunUnique | Microcode/GenMicrocode/ParseInstruction.py:133-137 | the dictionary never holds a name twice |
| MicrocodeGenerator.HandleData | Microcode/GenMicrocode/ParseInstruction.py:133-137 | a handled table that raises nothing is stored under the name it was handled with; a raised exception leaves the dictionary as it was |
| MicrocodeGenerator.UniqueFromKeys | Microcode/GenMicrocode/ParseInstruction.py:133-137 | storing keeps the keys distinct |
| MicrocodeGenerator.LastTableStored | Microcode/GenMicrocode/ParseInstruction.py:133-137 | after a run without exception, the last table is what its name maps to |
| MicrocodeGenerator.RunSmall | Microcode/GenMicrocode/ParseInstruction.py:111-137 | every stored table has at most eight rows per chip |
| MicrocodeGenerator.TablesSmall | Microcode/GenMicrocode/ParseInstruction.py:111-127 | every parsed table has at most eight rows per chip |
| MicrocodeGenerator.RunBytes | Microcode/GenMicrocode/ParseInstruction.py:173-256 | the banks filled from stored tables hold bytes |
| MicrocodeGenerator.GeneratedBytes | Microcode/GenMicrocode/ParseInstruction.py:75-256 | every bank byte generated from instruction texts is below 256 |
| MicrocodeGenerator.StaleNameOverwrites | GenMicroCode/ParseInstruction.py:25-69 | in the first generator a table with no name line is stored under the previous table's name, replacing it |
| MicrocodeGenerator.NamelessFirstTable | GenMicroCode/ParseInstruction.py:20-69 | a first table with no name raises NameError in the first generator and is stored under None in the chip-aware one |
| MicrocodeParser.ParseInstructions.constructor | Microcode/ParseInstruction.py:49-76 | the table list is replaced by the INC table alone, and the dictionary is empty |
| MicrocodeParser.ParseInstructions.ParseEachInstruction | Microcode/ParseInstruction.py:79-185 | every table is sorted and its control rows folded into pin lines, or the first table that raises gives its error |
| MicrocodeParser.ParseInstructions.GenerateAddressDataMap | Microcode/ParseInstruction.py:294-373 | four fresh zero banks of 32768 bytes and no signal names, as nothing fills the dictionary |
| MicrocodeParser.OtherLinesOfParseTool | Microcode/ParseInstruction.py:108-131 | a row is an other line exactly when it has fewer than two cells, a type other than "O", or the signal "-" |
| MicrocodeParser.MissingSignalRaises | Microcode/ParseInstruction.py:131-135 | an "O" row whose signal no section configures makes the table raise |

## Left out

- File and OS work: reading the assembly file, writing the `.bin` and `.i` files, the seven-segment `.bin` write, the microcode map file, and `createAutoGenInstructionFile`. The assembly text, the instruction tables and the configuration are parameters instead. The file output itself is left out. Building a map-file line calls `instruction.lower()`, and for a table stored under None that raises AttributeError; that error is modelled in MicrocodeBanks.ColumnWrite.
- `parseConfig` and YAML loading. A loaded configuration is a `Config` value with optional sections.
- The instruction table modules (`Instructions.*`) are not part of this model. Each table is a string parameter.
- `print` diagnostics, including the "exceeded 16" and "Multiple HIGH" warnings, which only print. `__str__` methods are also left out.
- The emulator's formatting helpers (`formatHex`, `formatBinary`, `formatAddress`, `formatInstruction`, `createHexDump`) and `safeInt`. They build display text only.
- `loadFile`, `loadAssembly`, `findAssemblyForBinary` and `autoLoadProgram`, which are file reads.
- `getState` and `setSignedMode`. They only copy or set fields that the CPU state already holds.
- Floating-point values, timing and progress reporting.
- Memory.Memory.LoadRom: the start address is a `nat`. A negative start, which Python would wrap around from the end of the ROM, is not modelled.
- Decoder.DecodeProgram: the start address is a `nat`. A negative start, whose first bytes Python would read from the end of the data, is not modelled.
- Cpu.Cpu8Bit.LoadProgram: the start address is a `nat`, as for `loadRom`.
- White space and upper-casing follow ASCII. Python's Unicode white space and case mapping beyond ASCII are not modelled.
- Helpers.CircularBuffer.constructor requires a size of at least 1. Python accepts 0 (or less), and its first `add` then raises IndexError at Emulator/utils/helpers.py:158, before the `% self.size` on the next line.
- The chip-aware generator is modelled for the two chips it names. Another chip name leaves its matrices unbound in Python and raises, and that path is not modelled.
- Autogen.SortRows records each other line with its index for both tools. The ParseInstruction.py tool keeps only the line, and nothing reads the index there.
- Autogen.AppendColumn: the pin bits are appended once a column is scanned, not during the scan. When a later row raises, the dictionary is lost either way, so the result is the same.
- MicrocodeGenerator.ParseInstructions.ParseEachInstruction parses every table first and then stores them. Python interleaves the two steps. Parsing changes nothing, so the outcome is the same, but the dictionary after an exception is stated only through `Run`.
- MicrocodeBanks.Generate: when a write raises, the bank contents are not stated. In Python the banks are a local of `generateAddressDataMap` and are lost when the exception propagates, so no caller can see them; nothing observable is left out.
- MicrocodeParser.ParseInstructions.GenerateAddressDataMap requires the dictionary to be empty. Nothing in that class ever stores into it.
- The EEPROM programmer, its firmware and the GUIs.

## Findings

| source | as written | input that shows it | evidently intended | confidence | as-written member | corrected member |
|---|---|---|---|---|---|---|
| Emulator/core/cpu.py:163-166 | the CPU reads operand keys `source_register` and `destination_register`, but the decoder produces `sourceRegister` and `destinationRegister` (Emulator/core/decoder.py:123-126), so every two-register instruction raises and the handler halts the CPU | byte 0x41 (ADD with source B, destination A) at PC 0 halts the CPU without changing A | two-register instructions execute on the decoded registers | high; not executed | CpuProperties.TwoRegisterAlwaysHalts | CpuProperties.DecoderKeysTwoRegisterRuns |
| Gen7segDriver/Gen7segDriver.py:85-89 | for a negative value, a zero tens digit under a nonzero hundreds digit gets the minus pattern | index 151 (-105) shows "-1-5" | a 0 in the tens place when a hundreds digit follows, as in the positive half | high; not executed | SevenSegment.NegativeCellDiffers | SevenSegment.NegativeCellFixedShown |
| Emulator/utils/helpers.py:166-167 | `get_recent` returns the whole buffer in storage order whenever it holds no more items than asked for, so a wrapped buffer comes back out of order | a buffer of size 2 after adding 1, 2, 3, asked for 5 items, gives [3, 2] | the items oldest first, [2, 3] | medium; not executed | Helpers.RecentWrappedOutOfOrder | Helpers.CircularBuffer.GetRecentInOrder |

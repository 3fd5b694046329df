/** The memory system: a 2 KiB program ROM addressed by 11 bits and a
    16-byte data RAM addressed by the low 4 bits of an address. */
module Memory {
  import opened Common

  const ROM_SIZE: nat := 2048
  const RAM_SIZE: nat := 16

  /** `bytearray(n)`: n zero bytes. */
  function Zeros(n: nat): (r: seq<byte>)
    ensures |r| == n && forall a :: 0 <= a < n ==> r[a] == 0
  {
    seq(n, _ => 0)
  }

  /** The ROM after `loadRom(data, start)`: data[i] at start + i while that
      address is inside the ROM, every other cell as before. */
  function LoadRomSpec(rom: seq<byte>, data: seq<byte>, start: nat): (r: seq<byte>)
    requires |rom| == ROM_SIZE
    ensures |r| == ROM_SIZE
  {
    seq(ROM_SIZE, a requires 0 <= a < ROM_SIZE =>
      if start <= a < start + |data| then data[a - start] else rom[a])
  }

  /** `readRom`: 0 outside the ROM. */
  function ReadRomSpec(rom: seq<byte>, address: int): byte
  {
    if 0 <= address < |rom| then rom[address] else 0
  }

  /** `readRam`: the address is masked to 4 bits (`& 0x0F`). */
  function ReadRamSpec(ram: seq<byte>, address: int): byte
    requires |ram| == RAM_SIZE
  {
    ram[address % 16]
  }

  /** `writeRam`: address masked to 4 bits, value to 8 bits. */
  function WriteRamSpec(ram: seq<byte>, address: int, value: int): (r: seq<byte>)
    requires |ram| == RAM_SIZE
    ensures |r| == RAM_SIZE
  {
    ram[address % 16 := value % 256]
  }

  /** Where a Python slice bound `i` lands in a list of length n: a negative
      bound counts from the end (and stops at 0), a bound past the end stops
      at n. */
  function SliceBound(i: int, n: nat): (r: nat)
    ensures r <= n
    ensures 0 <= i ==> r == if i <= n then i else n
    ensures i < 0 ==> r == if -i <= n then n + i else 0
  {
    if i < 0 then (if i + n < 0 then 0 else i + n)
    else if i > n then n else i
  }

  /** `getRomDump`: `rom[start:end]` with `end = min(start + length,
      ROM_SIZE)`, both bounds read the way a Python slice reads them. */
  function RomDumpSpec(rom: seq<byte>, start: int, length: int): (r: seq<byte>)
    requires |rom| == ROM_SIZE
    ensures |r| <= ROM_SIZE
    ensures 0 <= start && 0 <= length ==>
      |r| == if start + length <= ROM_SIZE then length
             else if start <= ROM_SIZE then ROM_SIZE - start else 0
    ensures forall k :: 0 <= k < |r| ==> r[k] == ReadRomSpec(rom, SliceBound(start, ROM_SIZE) + k)
  {
    var end := if start + length < ROM_SIZE then start + length else ROM_SIZE;
    var s, e := SliceBound(start, ROM_SIZE), SliceBound(end, ROM_SIZE);
    if s < e then rom[s..e] else []
  }

  /** A negative slice end counts back from the end of the ROM, and so does
      a negative start: `getRomDump(0, -1)` is all but the last byte,
      `getRomDump(5, -10)` stops 5 bytes before the end, and
      `getRomDump(-4, 2052)` is the last four bytes. */
  lemma NegativeBoundsFromEnd(rom: seq<byte>)
    requires |rom| == ROM_SIZE
    ensures RomDumpSpec(rom, 0, -1) == rom[..ROM_SIZE - 1]
    ensures RomDumpSpec(rom, 5, -10) == rom[5..ROM_SIZE - 5]
    ensures RomDumpSpec(rom, -4, ROM_SIZE + 4) == rom[ROM_SIZE - 4..]
    ensures RomDumpSpec(rom, -4, 4) == []
  {
  }

  /** Loading a program makes every byte that fits readable at its address,
      and no other address changes. */
  lemma LoadThenRead(rom: seq<byte>, data: seq<byte>, start: nat, address: int)
    requires |rom| == ROM_SIZE
    ensures ReadRomSpec(LoadRomSpec(rom, data, start), address)
         == if start <= address < start + |data| && address < ROM_SIZE then data[address - start]
            else ReadRomSpec(rom, address)
  {
  }

  /** Dumping the loaded region gives back the loaded data, truncated at the
      end of the ROM. */
  lemma {:induction false} LoadThenDump(rom: seq<byte>, data: seq<byte>, start: nat)
    requires |rom| == ROM_SIZE && start < ROM_SIZE
    ensures var n := if start + |data| <= ROM_SIZE then |data| else ROM_SIZE - start;
      RomDumpSpec(LoadRomSpec(rom, data, start), start, |data|) == data[..n]
  {
    var n := if start + |data| <= ROM_SIZE then |data| else ROM_SIZE - start;
    var r := RomDumpSpec(LoadRomSpec(rom, data, start), start, |data|);
    assert |r| == n;
    forall k | 0 <= k < n
      ensures r[k] == data[k]
    {
      LoadThenRead(rom, data, start, start + k);
    }
  }

  /** A RAM write is seen by reads of any address with the same low nibble
      and by no other. */
  lemma RamReadAfterWrite(ram: seq<byte>, w: int, r: int, value: int)
    requires |ram| == RAM_SIZE
    ensures ReadRamSpec(WriteRamSpec(ram, w, value), r)
         == if w % 16 == r % 16 then value % 256 else ReadRamSpec(ram, r)
  {
  }

  /** Addresses 16 apart reach the same RAM cell. */
  lemma RamAliasing(ram: seq<byte>, address: int)
    requires |ram| == RAM_SIZE
    ensures ReadRamSpec(ram, address + 16) == ReadRamSpec(ram, address)
    ensures ReadRamSpec(ram, -1) == ram[15]
  {
  }

  class Memory {
    const rom: array<byte>
    var ram: array<byte>

    predicate Valid()
      reads this
    {
      rom.Length == ROM_SIZE && ram.Length == RAM_SIZE && rom != ram
    }

    function RomContents(): seq<byte>
      reads rom
    {
      rom[..]
    }

    function RamContents(): seq<byte>
      reads this, ram
    {
      ram[..]
    }

    constructor()
      ensures Valid() && fresh(rom) && fresh(ram)
      ensures rom[..] == Zeros(ROM_SIZE) && ram[..] == Zeros(RAM_SIZE)
    {
      rom := new byte[ROM_SIZE];
      ram := new byte[RAM_SIZE](_ => 0);
      new;
      var i := 0;
      while i < ROM_SIZE
        modifies rom
        invariant 0 <= i <= ROM_SIZE
        invariant forall a :: 0 <= a < i ==> rom[a] == 0
      {
        rom[i] := 0;
        i := i + 1;
      }
      assert rom[..] == Zeros(ROM_SIZE);
      assert ram[..] == Zeros(RAM_SIZE);
    }

    /** `loadRom`: `false` is the error raised for a start address beyond
        the ROM, in which case nothing changes. */
    method LoadRom(binaryData: seq<byte>, startAddress: nat := 0) returns (ok: bool)
      requires Valid()
      modifies rom
      ensures ok <==> startAddress < ROM_SIZE
      ensures rom[..] == if ok then LoadRomSpec(old(rom[..]), binaryData, startAddress) else old(rom[..])
    {
      if startAddress >= ROM_SIZE {
        return false;
      }
      ghost var before := rom[..];
      var i := 0;
      while i < |binaryData|
        invariant 0 <= i <= |binaryData|
        invariant rom[..] == LoadRomSpec(before, binaryData[..i], startAddress)
      {
        if startAddress + i < ROM_SIZE {
          rom[startAddress + i] := binaryData[i];
        } else {
          break;
        }
        i := i + 1;
      }
      assert rom[..] == LoadRomSpec(before, binaryData, startAddress);
      return true;
    }

    method ReadRom(address: int) returns (value: byte)
      requires Valid()
      ensures value == ReadRomSpec(rom[..], address)
    {
      if 0 <= address < ROM_SIZE {
        value := rom[address];
      } else {
        value := 0;
      }
    }

    method ReadRam(address: int) returns (value: byte)
      requires Valid()
      ensures value == ReadRamSpec(ram[..], address)
    {
      value := ram[address % 16];
    }

    method WriteRam(address: int, value: int)
      requires Valid()
      modifies ram
      ensures ram[..] == WriteRamSpec(old(ram[..]), address, value)
    {
      ram[address % 16] := value % 256;
    }

    method GetRomDump(start: int := 0, length: int := 32) returns (dump: seq<byte>)
      requires Valid()
      ensures dump == RomDumpSpec(rom[..], start, length)
    {
      var end := if start + length < ROM_SIZE then start + length else ROM_SIZE;
      var s, e := SliceBound(start, ROM_SIZE), SliceBound(end, ROM_SIZE);
      dump := if s < e then rom[s..e] else [];
    }

    method GetRamDump() returns (dump: seq<byte>)
      requires Valid()
      ensures dump == ram[..] && |dump| == RAM_SIZE
    {
      dump := ram[..];
    }

    /** `resetRam`: a fresh, zero-filled RAM. */
    method ResetRam()
      requires Valid()
      modifies this
      ensures Valid() && fresh(ram) && ram[..] == Zeros(RAM_SIZE)
    {
      ram := new byte[RAM_SIZE](_ => 0);
      assert ram[..] == Zeros(RAM_SIZE);
    }
  }
}

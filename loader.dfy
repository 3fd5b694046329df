/** The binary loader's checks on a program image: `validateProgram`, which
    lists what is wrong with it, and `getProgramInfo`, which counts its
    non-padding bytes and walks it to estimate its instruction count.
    Reading the file is left to the caller: the bytes are given. */
module Loader {
  import opened Common

  /** The default `maxSize` of `validateProgram`. */
  const DefaultMaxSize := 2048

  const EmptyFile := "Empty file"
  const PaddingStart := "Program starts with padding (0xFF)"

  /** The message for an image larger than `maxSize`. */
  function TooLarge(size: int, maxSize: int): string
  {
    "Program too large (" + IntToDecimal(size) + " > " + IntToDecimal(maxSize) + " bytes)"
  }

  /** The three messages differ. */
  lemma MessagesDistinct(size: int, maxSize: int)
    ensures TooLarge(size, maxSize) != EmptyFile && TooLarge(size, maxSize) != PaddingStart
    ensures EmptyFile != PaddingStart
  {
    var m := TooLarge(size, maxSize);
    assert m[0] == 'P' && m[8] == 't';
    assert EmptyFile[0] == 'E' && PaddingStart[8] == 's';
  }

  /** `validateProgram`: the image is valid exactly when it is non-empty, no
      larger than `maxSize` and does not start with 0xFF; `issues` names each
      failed check once, in that order. */
  method ValidateProgram(binaryData: seq<byte>, maxSize: int := DefaultMaxSize) returns (valid: bool, issues: seq<string>)
    ensures valid <==> issues == []
    ensures valid <==> 0 < |binaryData| <= maxSize && binaryData[0] != 0xFF
    ensures EmptyFile in issues <==> |binaryData| == 0
    ensures TooLarge(|binaryData|, maxSize) in issues <==> |binaryData| > maxSize
    ensures PaddingStart in issues <==> |binaryData| > 0 && binaryData[0] == 0xFF
    ensures |issues| == (if |binaryData| == 0 then 1 else 0)
                      + (if |binaryData| > maxSize then 1 else 0)
                      + (if |binaryData| > 0 && binaryData[0] == 0xFF then 1 else 0)
  {
    MessagesDistinct(|binaryData|, maxSize);
    issues := [];
    if |binaryData| == 0 {
      issues := issues + [EmptyFile];
    }
    if |binaryData| > maxSize {
      issues := issues + [TooLarge(|binaryData|, maxSize)];
    }
    if |binaryData| > 0 {
      var firstByte := binaryData[0];
      if firstByte == 0xFF {
        issues := issues + [PaddingStart];
      }
    }
    valid := |issues| == 0;
  }

  /** 0x00 (NOP) and 0xFF (erased EEPROM) count as padding. */
  predicate Padding(b: byte)
  {
    b == 0x00 || b == 0xFF
  }

  /** The estimated size of an instruction from its low nibble: 2 bytes for
      4 and C, 3 for 5, 1 otherwise. */
  function Step(b: byte): (n: nat)
    ensures 1 <= n <= 3
  {
    var opcode := b % 16;
    if opcode == 0x04 || opcode == 0x0C then 2
    else if opcode == 0x05 then 3
    else 1
  }

  /** The non-padding bytes from position `i` on. */
  function NonPaddingFrom(data: seq<byte>, i: nat): nat
    decreases |data| - i
  {
    if i >= |data| then 0
    else (if Padding(data[i]) then 0 else 1) + NonPaddingFrom(data, i + 1)
  }

  /** The instructions the walk counts from position `i` on: padding is
      skipped one byte at a time, every other byte starts an instruction
      and the walk jumps over its estimated size. */
  function EstimateFrom(data: seq<byte>, i: nat): nat
    decreases |data| - i
  {
    if i >= |data| then 0
    else if Padding(data[i]) then EstimateFrom(data, i + 1)
    else 1 + EstimateFrom(data, i + Step(data[i]))
  }

  lemma {:induction false} NonPaddingBound(data: seq<byte>, i: nat)
    requires i <= |data|
    ensures NonPaddingFrom(data, i) <= |data| - i
    decreases |data| - i
  {
    if i < |data| {
      NonPaddingBound(data, i + 1);
    }
  }

  lemma {:induction false} NonPaddingMonotone(data: seq<byte>, i: nat, j: nat)
    requires i <= j
    ensures NonPaddingFrom(data, j) <= NonPaddingFrom(data, i)
    decreases j - i
  {
    if i < j {
      NonPaddingMonotone(data, i + 1, j);
    }
  }

  /** Every counted start is a distinct non-padding byte, so the estimate
      never exceeds the non-padding count. */
  lemma {:induction false} EstimateAtMostNonPadding(data: seq<byte>, i: nat)
    ensures EstimateFrom(data, i) <= NonPaddingFrom(data, i)
    decreases |data| - i
  {
    if i < |data| {
      if Padding(data[i]) {
        EstimateAtMostNonPadding(data, i + 1);
      } else {
        EstimateAtMostNonPadding(data, i + Step(data[i]));
        NonPaddingMonotone(data, i + 1, i + Step(data[i]));
      }
    }
  }

  /** What `getProgramInfo` returns. An empty image gets a dictionary of
      its own, with the keys "instructions", "size" and "nonZeroBytes" all
      0; any other gets "size", "nonZeroBytes", "estimatedInstructions" and
      "paddingBytes". */
  datatype ProgramInfo =
    | EmptyProgram
    | Info(size: nat, nonZeroBytes: nat, estimatedInstructions: nat, paddingBytes: int)

  /** `getProgramInfo`: the counts, the estimate by the walk, and the
      bound that relates them. */
  method GetProgramInfo(binaryData: seq<byte>) returns (info: ProgramInfo)
    ensures binaryData == [] ==> info == EmptyProgram
    ensures binaryData != [] ==>
      && info.Info?
      && info.size == |binaryData|
      && info.nonZeroBytes == NonPaddingFrom(binaryData, 0)
      && info.estimatedInstructions == EstimateFrom(binaryData, 0)
      && info.paddingBytes == info.size - info.nonZeroBytes
      && info.estimatedInstructions <= info.nonZeroBytes <= info.size
  {
    if binaryData == [] {
      return EmptyProgram;
    }
    var nonZeroBytes := NonPaddingFrom(binaryData, 0);
    var estimatedInstructions := 0;
    var i := 0;
    while i < |binaryData|
      invariant i <= |binaryData| + 2
      invariant estimatedInstructions + EstimateFrom(binaryData, i) == EstimateFrom(binaryData, 0)
      decreases |binaryData| - i
    {
      var b := binaryData[i];
      if b == 0x00 || b == 0xFF {
        i := i + 1;
        continue;
      }
      var opcode := b % 16;
      if opcode == 0x04 || opcode == 0x0C {
        i := i + 2;
      } else if opcode == 0x05 {
        i := i + 3;
      } else {
        i := i + 1;
      }
      estimatedInstructions := estimatedInstructions + 1;
    }
    NonPaddingBound(binaryData, 0);
    EstimateAtMostNonPadding(binaryData, 0);
    info := Info(|binaryData|, nonZeroBytes, estimatedInstructions, |binaryData| - nonZeroBytes);
  }
}

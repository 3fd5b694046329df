/** The line-by-line assembler for one-byte MOV, ADD, SUB, INC and DEC.

    `preProcess` cleans every source line (strip, cut at the first ';',
    upper-case); `compile` turns each non-blank cleaned line into one byte:
    the register codes in the upper nibble, the instruction code in the
    lower one. The first line that does not assemble stops the compiler
    with an error quoting the original line and its 1-based number. */
module Compiler {
  import opened Common

  // ---------------------------------------------------------------------
  // Preprocessing
  // ---------------------------------------------------------------------

  /** One line after `preProcess`: stripped, cut at the first ';' and
      upper-cased. */
  function CleanLine(raw: string): string
  {
    Upper(SplitOn(Strip(raw), ';')[0])
  }

  /** The shape of every preprocessed line: empty, or starting with a
      character that is not white space; never a ';'; no lower-case ASCII
      letter. */
  predicate Cleaned(line: string)
  {
    && (line == [] || !IsSpace(line[0]))
    && ';' !in line
    && forall i :: 0 <= i < |line| ==> !('a' <= line[i] <= 'z')
  }

  lemma CleanLineIsCleaned(raw: string)
    ensures Cleaned(CleanLine(raw))
  {
    var left := TrimLeft(raw);
    var stripped := TrimRight(left);
    var cut := SplitOn(stripped, ';')[0];
    var line := Upper(cut);
    TrimLeftShape(raw);
    TrimRightShape(left);
    SplitOnFirst(stripped, ';');
    assert line == CleanLine(raw);
    if cut != [] {
      assert cut[0] == stripped[0] == left[0];
    }
    forall i | 0 <= i < |line|
      ensures line[i] != ';' && !('a' <= line[i] <= 'z')
    {
      assert line[i] == UpperChar(cut[i]) && cut[i] != ';';
    }
  }

  /** Upper-casing a line leaves its white space and its ';' where they
      were, so it commutes with every cleaning step; upper-casing twice is
      upper-casing once. */
  lemma UpperKeepsSpace(c: char)
    ensures IsSpace(UpperChar(c)) <==> IsSpace(c)
  {
  }

  lemma {:induction false} UpperTrimLeft(s: string)
    ensures TrimLeft(Upper(s)) == Upper(TrimLeft(s))
    decreases |s|
  {
    if |s| > 0 {
      UpperKeepsSpace(s[0]);
      if IsSpace(s[0]) {
        assert Upper(s)[1..] == Upper(s[1..]);
        UpperTrimLeft(s[1..]);
      }
    }
  }

  lemma {:induction false} UpperTrimRight(s: string)
    ensures TrimRight(Upper(s)) == Upper(TrimRight(s))
    decreases |s|
  {
    if |s| > 0 {
      UpperKeepsSpace(s[|s| - 1]);
      if IsSpace(s[|s| - 1]) {
        assert Upper(s)[..|s| - 1] == Upper(s[..|s| - 1]);
        UpperTrimRight(s[..|s| - 1]);
      }
    }
  }

  lemma {:induction false} UpperSplitHead(s: string, sep: char)
    requires !('a' <= sep <= 'z') && !('A' <= sep <= 'Z')
    ensures SplitOn(Upper(s), sep)[0] == Upper(SplitOn(s, sep)[0])
    decreases |s|
  {
    if |s| > 0 {
      assert Upper(s)[1..] == Upper(s[1..]);
      UpperSplitHead(s[1..], sep);
      if s[0] != sep {
        assert Upper([s[0]] + SplitOn(s[1..], sep)[0]) == [UpperChar(s[0])] + Upper(SplitOn(s[1..], sep)[0]);
      }
    }
  }

  lemma UpperIdempotent(s: string)
    ensures Upper(Upper(s)) == Upper(s)
  {
    assert forall i :: 0 <= i < |s| ==> Upper(Upper(s))[i] == Upper(s)[i];
  }

  /** Mnemonics and register names are case-insensitive: a line and its
      upper-cased form clean to the same text. */
  lemma CaseInsensitive(raw: string)
    ensures CleanLine(Upper(raw)) == CleanLine(raw)
  {
    var left := TrimLeft(raw);
    var stripped := TrimRight(left);
    var cut := SplitOn(stripped, ';')[0];
    calc {
      CleanLine(Upper(raw));
      Upper(SplitOn(TrimRight(TrimLeft(Upper(raw))), ';')[0]);
      { UpperTrimLeft(raw); }
      Upper(SplitOn(TrimRight(Upper(left)), ';')[0]);
      { UpperTrimRight(left); }
      Upper(SplitOn(Upper(stripped), ';')[0]);
      { UpperSplitHead(stripped, ';'); }
      Upper(Upper(cut));
      { UpperIdempotent(cut); }
      Upper(cut);
    }
  }

  // ---------------------------------------------------------------------
  // Encoding one line
  // ---------------------------------------------------------------------

  /** `registerDict`: A, B, C and D are 0b00..0b11. */
  function RegisterCode(name: string): Option<int>
  {
    if name == "A" then Some(0) else if name == "B" then Some(1)
    else if name == "C" then Some(2) else if name == "D" then Some(3)
    else None
  }

  /** `instructionDict` for the one-operand instructions. */
  function SingleCode(opcode: string): Option<int>
  {
    if opcode == "ADD" then Some(0x0) else if opcode == "SUB" then Some(0x4)
    else if opcode == "INC" then Some(0x8) else if opcode == "DEC" then Some(0xC)
    else None
  }

  /** The MOV code of `instructionDict`. */
  const MovCode := 0x1

  /** Every operand is one of the register names (`payload in registerList`). */
  predicate AllRegisters(payload: seq<string>)
  {
    forall k :: 0 <= k < |payload| ==> RegisterCode(payload[k]).Some?
  }

  /** What `compile` does with one line: nothing for a blank line or a
      one-operand MOV, one byte for a good instruction, an error otherwise. */
  datatype Outcome = Blank | Skipped | Emit(value: byte) | Fail

  /** The byte of a MOV: source code in bits 7-6, destination code in bits
      5-4, 0001 below. */
  function MovByte(source: string, destination: string): (b: byte)
    requires RegisterCode(source).Some? && RegisterCode(destination).Some?
    ensures b % 16 == MovCode
    ensures b / 64 == RegisterCode(source).value && (b / 16) % 4 == RegisterCode(destination).value
  {
    RegisterCode(source).value * 64 + RegisterCode(destination).value * 16 + MovCode
  }

  /** The byte of ADD, SUB, INC or DEC: register code in bits 5-4 (bits 7-6
      stay 0), the instruction code below. */
  function SingleByte(opcode: string, register: string): (b: byte)
    requires SingleCode(opcode).Some? && RegisterCode(register).Some?
    ensures b % 16 == SingleCode(opcode).value && b / 16 == RegisterCode(register).value
  {
    RegisterCode(register).value * 16 + SingleCode(opcode).value
  }

  /** The outcome of the words of a non-blank line. */
  function EncodeWords(words: seq<string>): Outcome
    requires |words| >= 1
  {
    var opcode, payload := words[0], words[1..];
    if opcode == "MOV" then
      if !AllRegisters(payload) then Fail
      else if |payload| == 1 then Skipped
      else if |payload| != 2 then Fail
      else Emit(MovByte(payload[0], payload[1]))
    else if SingleCode(opcode).Some? then
      if !AllRegisters(payload) || |payload| != 1 then Fail
      else Emit(SingleByte(opcode, payload[0]))
    else Fail
  }

  /** The outcome of one preprocessed line. */
  function EncodeLine(line: string): Outcome
    requires Cleaned(line)
  {
    if line == [] then Blank else EncodeWords(SplitWs(line))
  }

  /** `MOV r1 r2` emits the two register codes above 0001. */
  lemma MovEncoding(r1: string, r2: string)
    requires RegisterCode(r1).Some? && RegisterCode(r2).Some?
    ensures EncodeWords(["MOV", r1, r2]) ==
      Emit(RegisterCode(r1).value * 64 + RegisterCode(r2).value * 16 + 0x1)
  {
    assert ["MOV", r1, r2][1..] == [r1, r2];
  }

  /** `MOV r` with one register is ignored; MOV with no operand or with
      three or more is an error, as is any non-register operand. */
  lemma MovOperandCounts(payload: seq<string>)
    ensures var o := EncodeWords(["MOV"] + payload);
      && (o == Skipped <==> |payload| == 1 && RegisterCode(payload[0]).Some?)
      && (o.Emit? <==> |payload| == 2 && AllRegisters(payload))
      && (o == Fail <==> !AllRegisters(payload) || (|payload| != 1 && |payload| != 2))
  {
    assert (["MOV"] + payload)[1..] == payload;
  }

  /** ADD, SUB, INC and DEC with exactly one register emit the register
      code above 0000, 0100, 1000 or 1100; any other operand list fails. */
  lemma SingleEncoding(opcode: string, payload: seq<string>)
    requires SingleCode(opcode).Some?
    ensures var o := EncodeWords([opcode] + payload);
      && (o.Emit? <==> |payload| == 1 && RegisterCode(payload[0]).Some?)
      && (o.Emit? ==> o.value == RegisterCode(payload[0]).value * 16 + SingleCode(opcode).value)
      && (!o.Emit? ==> o == Fail)
  {
    assert ([opcode] + payload)[1..] == payload;
  }

  /** Any other first word is an error. */
  lemma UnknownMnemonicFails(words: seq<string>)
    requires |words| >= 1 && words[0] != "MOV" && SingleCode(words[0]).None?
    ensures EncodeWords(words) == Fail
  {
  }

  /** A non-blank cleaned line always has a first word, so `splitData[0]`
      exists. */
  lemma NonBlankHasOpcode(line: string)
    requires Cleaned(line) && line != []
    ensures |SplitWs(line)| >= 1
  {
  }

  // ---------------------------------------------------------------------
  // The whole program
  // ---------------------------------------------------------------------

  /** The error `errorPrint` raises: the original line and its 1-based
      number. */
  datatype CompileError = CompileError(line: string, lineNo: nat)

  predicate AllCleaned(lines: seq<string>)
  {
    forall k :: 0 <= k < |lines| ==> Cleaned(lines[k])
  }

  /** The outcome of every preprocessed line, in order. */
  function Outcomes(lines: seq<string>): (r: seq<Outcome>)
    requires AllCleaned(lines)
    ensures |r| == |lines| && forall k :: 0 <= k < |lines| ==> r[k] == EncodeLine(lines[k])
  {
    seq(|lines|, k requires 0 <= k < |lines| => EncodeLine(lines[k]))
  }

  /** `compile` from line `i` on, given the outcome of each line and the
      original lines: the bytes of the remaining lines, or the error of the
      first one that fails. */
  function CompileFrom(outcomes: seq<Outcome>, raw: seq<string>, i: nat): Result<seq<byte>, CompileError>
    requires |outcomes| == |raw| && i <= |outcomes|
    decreases |outcomes| - i
  {
    if i == |outcomes| then Ok([])
    else
      match outcomes[i]
      case Fail => Err(CompileError(raw[i], i + 1))
      case Emit(b) => Prepend([b], CompileFrom(outcomes, raw, i + 1))
      case _ => CompileFrom(outcomes, raw, i + 1)
  }

  /** Bytes already emitted in front of the rest of the output; an error
      discards them. */
  function Prepend(prefix: seq<byte>, rest: Result<seq<byte>, CompileError>): Result<seq<byte>, CompileError>
  {
    if rest.Ok? then Ok(prefix + rest.value) else rest
  }

  lemma PrependNothing(rest: Result<seq<byte>, CompileError>)
    ensures Prepend([], rest) == rest
  {
    if rest.Ok? {
      assert [] + rest.value == rest.value;
    }
  }

  lemma PrependTwice(p: seq<byte>, q: seq<byte>, rest: Result<seq<byte>, CompileError>)
    ensures Prepend(p, Prepend(q, rest)) == Prepend(p + q, rest)
  {
    if rest.Ok? {
      assert p + (q + rest.value) == (p + q) + rest.value;
    }
  }

  /** The cleaned lines of a source text. */
  function CleanLines(rawLines: seq<string>): (lines: seq<string>)
    ensures |lines| == |rawLines| && AllCleaned(lines)
    ensures forall k :: 0 <= k < |lines| ==> lines[k] == CleanLine(rawLines[k])
  {
    var lines := seq(|rawLines|, k requires 0 <= k < |rawLines| => CleanLine(rawLines[k]));
    assert AllCleaned(lines) by {
      forall k | 0 <= k < |lines| {
        CleanLineIsCleaned(rawLines[k]);
      }
    }
    lines
  }

  /** The whole compiler on the text of a source file. */
  function CompileText(assembly: string): Result<seq<byte>, CompileError>
  {
    var rawLines := SplitOn(assembly, '\n');
    CompileFrom(Outcomes(CleanLines(rawLines)), rawLines, 0)
  }

  /** `compile` fails exactly when some line fails, and then the error is
      that of the first failing line: its original text and 1-based number. */
  lemma {:induction false} ErrorIsFirstFailure(outcomes: seq<Outcome>, raw: seq<string>, i: nat)
    requires |outcomes| == |raw| && i <= |outcomes|
    ensures CompileFrom(outcomes, raw, i).Err? <==> exists k :: i <= k < |outcomes| && outcomes[k] == Fail
    ensures var r := CompileFrom(outcomes, raw, i);
      r.Err? ==>
        && i < r.error.lineNo <= |outcomes|
        && outcomes[r.error.lineNo - 1] == Fail
        && r.error.line == raw[r.error.lineNo - 1]
        && forall k :: i <= k < r.error.lineNo - 1 ==> outcomes[k] != Fail
    decreases |outcomes| - i
  {
    if i < |outcomes| && outcomes[i] != Fail {
      ErrorIsFirstFailure(outcomes, raw, i + 1);
      if exists k :: i <= k < |outcomes| && outcomes[k] == Fail {
        var k :| i <= k < |outcomes| && outcomes[k] == Fail;
        assert k != i;
      }
    }
  }

  /** Blank lines and one-operand MOV lines from line `i` on. */
  function Silent(outcomes: seq<Outcome>, i: nat): nat
    requires i <= |outcomes|
    decreases |outcomes| - i
  {
    if i == |outcomes| then 0
    else (if outcomes[i] == Blank || outcomes[i] == Skipped then 1 else 0) + Silent(outcomes, i + 1)
  }

  /** On success the output holds one byte per line that is neither blank
      nor a one-operand MOV. */
  lemma {:induction false} OutputLength(outcomes: seq<Outcome>, raw: seq<string>, i: nat)
    requires |outcomes| == |raw| && i <= |outcomes|
    ensures Silent(outcomes, i) <= |outcomes| - i
    ensures CompileFrom(outcomes, raw, i).Ok? ==>
      |CompileFrom(outcomes, raw, i).value| == |outcomes| - i - Silent(outcomes, i)
    decreases |outcomes| - i
  {
    if i < |outcomes| {
      OutputLength(outcomes, raw, i + 1);
    }
  }

  // ---------------------------------------------------------------------
  // The assembler object
  // ---------------------------------------------------------------------

  class Compiler {
    /** The source text, then (after `preProcess`) its lines. */
    var assemblyText: string
    var assemblyMain: seq<string>
    /** The cleaned lines. */
    var assemblyLine: seq<string>

    /** Reading the file is left to the caller: the text is given. */
    constructor(assembly: string)
      ensures assemblyText == assembly && assemblyMain == [] && assemblyLine == []
    {
      assemblyText := assembly;
      assemblyMain := [];
      assemblyLine := [];
    }

    /** `preProcess`: split into lines, then strip, cut comments and
        upper-case, each stage rebinding `assemblyLine`. */
    method PreProcess()
      modifies this
      ensures assemblyText == old(assemblyText)
      ensures assemblyMain == SplitOn(assemblyText, '\n')
      ensures assemblyLine == CleanLines(assemblyMain)
    {
      var main := SplitOn(assemblyText, '\n');
      var n := |main|;
      var stripped := seq(n, k requires 0 <= k < n => Strip(main[k]));
      var uncommented := seq(n, k requires 0 <= k < n => SplitOn(stripped[k], ';')[0]);
      var upper := seq(n, k requires 0 <= k < n => Upper(uncommented[k]));
      forall k | 0 <= k < n
        ensures upper[k] == CleanLines(main)[k]
      {
      }
      assert upper == CleanLines(main);
      assemblyMain := main;
      assemblyLine := upper;
    }

    /** `compile`: the bytes of the program, or the error of the first
        line that does not assemble. */
    method Compile() returns (r: Result<seq<byte>, CompileError>)
      requires |assemblyLine| == |assemblyMain| && AllCleaned(assemblyLine)
      ensures r == CompileFrom(Outcomes(assemblyLine), assemblyMain, 0)
    {
      ghost var outcomes := Outcomes(assemblyLine);
      var binArr: seq<byte> := [];
      var index := 0;
      PrependNothing(CompileFrom(outcomes, assemblyMain, 0));
      while index < |assemblyLine|
        invariant index <= |assemblyLine|
        invariant Prepend(binArr, CompileFrom(outcomes, assemblyMain, index))
               == CompileFrom(outcomes, assemblyMain, 0)
      {
        var line := assemblyLine[index];
        var outcome := AssembleLine(line);
        if outcome == Fail {
          return Err(CompileError(assemblyMain[index], index + 1));
        }
        if outcome.Emit? {
          PrependTwice(binArr, [outcome.value], CompileFrom(outcomes, assemblyMain, index + 1));
          binArr := binArr + [outcome.value];
        }
        index := index + 1;
      }
      assert binArr + [] == binArr;
      return Ok(binArr);
    }

    /** The body of the `compile` loop for one line: check the operands,
        then shift the register codes into `bitVal` one by one. */
    method AssembleLine(line: string) returns (outcome: Outcome)
      requires Cleaned(line)
      ensures outcome == EncodeLine(line)
    {
      if line == [] {
        return Blank;
      }
      var splitData := SplitWs(line);
      var opcode := splitData[0];
      var payloadList := splitData[1..];
      var payloadLen := |payloadList|;
      var bitVal := 0;
      if opcode == "MOV" {
        var valid := CheckRegisters(payloadList);
        if !valid {
          return Fail;
        }
        if payloadLen == 1 {
          return Skipped;
        }
        if payloadLen != 2 {
          return Fail;
        }
        var k := 0;
        while k < payloadLen
          invariant 0 <= k <= payloadLen
          invariant bitVal == PackCodes(payloadList[..k])
        {
          assert payloadList[..k + 1][..k] == payloadList[..k];
          bitVal := bitVal * 4 + RegisterCode(payloadList[k]).value;
          k := k + 1;
        }
        assert payloadList[..2] == payloadList;
        assert payloadList[..1] == [payloadList[0]];
        bitVal := bitVal * 16 + MovCode;
        outcome := Emit(bitVal);
      } else if SingleCode(opcode).Some? {
        var valid := CheckRegisters(payloadList);
        if !valid || payloadLen != 1 {
          return Fail;
        }
        bitVal := RegisterCode(payloadList[0]).value;
        bitVal := bitVal * 16 + SingleCode(opcode).value;
        outcome := Emit(bitVal);
      } else {
        outcome := Fail;
      }
    }

    /** The `payload not in self.registerList` loop. */
    method CheckRegisters(payload: seq<string>) returns (valid: bool)
      ensures valid <==> AllRegisters(payload)
    {
      var k := 0;
      while k < |payload|
        invariant 0 <= k <= |payload|
        invariant AllRegisters(payload[..k])
      {
        if RegisterCode(payload[k]).None? {
          return false;
        }
        assert payload[..k + 1] == payload[..k] + [payload[k]];
        k := k + 1;
      }
      assert payload[..k] == payload;
      return true;
    }

    /** `__init__` after reading the file: `preProcess`, then `compile`. */
    method Build() returns (r: Result<seq<byte>, CompileError>)
      modifies this
      ensures r == CompileText(old(assemblyText))
    {
      PreProcess();
      r := Compile();
    }
  }

  /** `bitVal = (bitVal << 2) | code` over the operands, first operand
      highest. */
  function PackCodes(payload: seq<string>): int
    requires AllRegisters(payload)
  {
    if |payload| == 0 then 0
    else PackCodes(payload[..|payload| - 1]) * 4 + RegisterCode(payload[|payload| - 1]).value
  }
}

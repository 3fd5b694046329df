/** The text format of a microcode instruction table, as all four microcode
    tools read it: the table is split into lines; a line is a row of cells
    separated by '|', of which the white-space-only ones are dropped; the
    first cell is the row type and the second the signal name. A line
    containing "INSTRUCTION:" names the instruction. */
module InstructionText {
  import opened Common

  const NAME_MARK := "INSTRUCTION:"
  const TYPE_INPUT := "I"
  const TYPE_OUTPUT := "O"

  /** The stripped parts that are not empty, in order. */
  function NonEmptyStripped(parts: seq<string>): (r: seq<string>)
    ensures |r| <= |parts|
    ensures forall i :: 0 <= i < |r| ==> r[i] != ""
  {
    if parts == [] then []
    else
      var c := Strip(parts[0]);
      (if c == "" then [] else [c]) + NonEmptyStripped(parts[1..])
  }

  /** `[item.strip() for item in line.split("|") if item.strip()]`. */
  function Cells(line: string): seq<string>
  {
    NonEmptyStripped(SplitOn(line, '|'))
  }

  /** `textIns.split("\n")`. */
  function Lines(text: string): seq<string>
  {
    SplitOn(text, '\n')
  }

  /** `line.split(":")[-1].strip()`. */
  function NameIn(line: string): string
  {
    var parts := SplitOn(line, ':');
    Strip(parts[|parts| - 1])
  }

  /** The name on the first line containing "INSTRUCTION:" from line `i`
      on, if there is one. */
  function NameFrom(lines: seq<string>, i: nat): Option<string>
    decreases |lines| - i
  {
    if i >= |lines| then None
    else if Contains(lines[i], NAME_MARK) then Some(NameIn(lines[i]))
    else NameFrom(lines, i + 1)
  }

  /** The name search: the first marked line wins, and a table without
      one has no name. */
  lemma {:induction false} NameFromFirst(lines: seq<string>, i: nat, j: nat)
    requires i <= j <= |lines|
    requires forall t :: i <= t < j ==> !Contains(lines[t], NAME_MARK)
    ensures j < |lines| && Contains(lines[j], NAME_MARK) ==> NameFrom(lines, i) == Some(NameIn(lines[j]))
    ensures j == |lines| ==> NameFrom(lines, i) == None
    decreases j - i
  {
    if i < j {
      NameFromFirst(lines, i + 1, j);
    }
  }

  /** The loop that finds the instruction name and breaks. */
  method FindName(lines: seq<string>) returns (instructionName: Option<string>)
    ensures instructionName == NameFrom(lines, 0)
    ensures instructionName.Some? <==> exists t :: 0 <= t < |lines| && Contains(lines[t], NAME_MARK)
  {
    instructionName := None;
    var i := 0;
    while i < |lines|
      invariant 0 <= i <= |lines|
      invariant forall t :: 0 <= t < i ==> !Contains(lines[t], NAME_MARK)
    {
      if Contains(lines[i], NAME_MARK) {
        NameFromFirst(lines, 0, i);
        return Some(NameIn(lines[i]));
      }
      i := i + 1;
    }
    NameFromFirst(lines, 0, i);
  }
}

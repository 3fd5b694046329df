/** The class `ParseInstructions` of `Microcode/ParseInstruction.py`: it
    builds the list of instruction tables and then keeps only INC, sorts
    the rows of each table and folds the control rows into virtual pin
    lines, and fills four AT28C256 banks from its dictionary of parsed
    tables, which nothing ever fills. */
module MicrocodeParser {
  import opened Common
  import opened Dict
  import opened MicrocodeConfig
  import opened InstructionText
  import opened Autogen
  import opened MicrocodeTables
  import opened MicrocodeBanks

  /** The chip the bank fill is written for: four banks of 32768 bytes. */
  const BANKS := ChipGenerator(AT28C256)

  class ParseInstructions {
    const uCodeConfig: Config
    var insObjects: seq<string>
    var instructionParsedData: Mapping<Option<string>, Parsed>

    /** Nothing stores into the dictionary: it stays the empty one the
        constructor makes. */
    ghost predicate Unfilled()
      reads this
    {
      instructionParsedData == []
    }

    /** The list of all instruction tables is built and at once replaced
        by the INC table alone. */
    constructor(config: Config, allTables: seq<string>, inc: string)
      ensures Unfilled()
      ensures uCodeConfig == config && insObjects == [inc]
    {
      uCodeConfig := config;
      insObjects := allTables;
      insObjects := [inc];
      instructionParsedData := [];
    }

    /** `parseEachInstruction`: every table in turn is sorted and its
        control rows are folded into virtual pin lines; the first exception
        ends the run. The lines are what the method computes and then
        drops; the object is left as it was. */
    method ParseEachInstruction() returns (r: Result<seq<InstructionLines>, Raised>)
      requires Valid(uCodeConfig)
      ensures r.Ok? ==>
        && |r.value| == |insObjects|
        && forall i :: 0 <= i < |insObjects| ==> InstructionSpec(ParseTool, uCodeConfig, insObjects[i]) == Ok(r.value[i])
      ensures r.Err? ==>
        exists i :: (0 <= i < |insObjects|
          && InstructionSpec(ParseTool, uCodeConfig, insObjects[i]) == Err(r.error)
          && forall j :: 0 <= j < i ==> InstructionSpec(ParseTool, uCodeConfig, insObjects[j]).Ok?)
    {
      var texts := insObjects;
      var done: seq<InstructionLines> := [];
      for i := 0 to |texts|
        invariant |done| == i
        invariant forall j :: 0 <= j < i ==> InstructionSpec(ParseTool, uCodeConfig, texts[j]) == Ok(done[j])
      {
        var lines := AutogenInstruction(ParseTool, uCodeConfig, texts[i]);
        if lines.Err? {
          return Err(lines.error);
        }
        done := done + [lines.value];
      }
      r := Ok(done);
    }

    /** `generateAddressDataMap`: four zeroed banks of 32768 bytes, filled
        from the dictionary; as the dictionary is empty, the banks stay
        zero and no signal names are returned. */
    method GenerateAddressDataMap() returns (microcodeMatrix: array2<nat>, microInsMatrix: Option<MicroIns>)
      requires Unfilled()
      ensures fresh(microcodeMatrix)
      ensures microcodeMatrix.Length0 == 4 && microcodeMatrix.Length1 == 32768
      ensures forall c, a :: 0 <= c < 4 && 0 <= a < 32768 ==> microcodeMatrix[c, a] == 0
      ensures microInsMatrix == None
    {
      var raised;
      raised, microcodeMatrix, microInsMatrix := Generate(BANKS, instructionParsedData);
      assert AllWrites(BANKS, instructionParsedData, 0) == Ok([]);
    }
  }

  /** The rows `parseEachInstruction` keeps as other lines: fewer than two
      cells, a type other than "O" (every "I" row among them), or the
      signal "-"; each keeps its line. */
  lemma OtherLinesOfParseTool(rows: seq<(string, seq<string>)>, config: Config)
    requires SortLines(ParseTool, rows, config).Ok?
    ensures forall i :: 0 <= i < |rows| ==>
      ((rows[i].0, i) in SortLines(ParseTool, rows, config).value.other
       <==> (|rows[i].1| < 2 || rows[i].1[0] != TYPE_OUTPUT || rows[i].1[1] == "-"))
  {
    OtherLines(ParseTool, rows, config);
  }

  /** An "O" row whose signal is in no section of the configuration makes
      `parseEachInstruction` raise for its table. */
  lemma MissingSignalRaises(config: Config, text: string, i: nat)
    requires i < |Lines(text)|
    requires var cells := Cells(Lines(text)[i]);
      |cells| >= 2 && cells[0] == TYPE_OUTPUT && cells[1] != "-" && LastSection(cells[1], config, |Sections|).0 == -1
    ensures InstructionSpec(ParseTool, config, text).Err?
  {
    var rows := Rows(Lines(text));
    assert Place(ParseTool, rows[i].1, config).Missing?;
    SortFailsOnMissing(ParseTool, rows, config);
  }
}

/** The row parsing of the two EEPROM table generators
    (`GenMicroCode/ParseInstruction.py` and the chip-aware
    `Microcode/GenMicrocode/ParseInstruction.py`): the input rows of an
    instruction table become the address matrix, and the output rows are
    dealt to the chips eight at a time, one control line per row. */
module MicrocodeTables {
  import opened Common
  import opened MicrocodeConfig
  import opened InstructionText

  /** The EEPROMs the chip-aware generator builds for. */
  datatype ChipName = AT28C16 | AT28C256

  /** The first generator always builds for three 2048-byte chips; the
      chip-aware one builds for the chip it is given. */
  datatype Generator = FirstGenerator | ChipGenerator(chip: ChipName)

  /** One bank per chip: three, or four for the AT28C256. */
  function ChipCount(g: Generator): nat
  {
    if g == ChipGenerator(AT28C256) then 4 else 3
  }

  /** The size of a bank: 2048, or 32768 for the AT28C256. */
  function BankSize(g: Generator): nat
  {
    if g == ChipGenerator(AT28C256) then 32768 else 2048
  }

  /** The data lines of one chip. */
  const ROWS_PER_CHIP := 8

  /** What `parseEachInstruction` keeps of one table: the input signal
      names and their data cells (`microInsMatrix["in"]`, `addressMatrix`),
      and per chip the output signal names and data cells
      (`microInsMatrix["out"]`, `outputMatrix`). */
  datatype Parsed = Parsed(
    inNames: seq<string>, addressMatrix: seq<seq<string>>,
    outNames: seq<seq<string>>, outputMatrix: seq<seq<seq<string>>>)

  /** The cells of every line. */
  function CellRows(lines: seq<string>): (rows: seq<seq<string>>)
    ensures |rows| == |lines|
  {
    seq(|lines|, i requires 0 <= i < |lines| => Cells(lines[i]))
  }

  predicate IsInput(cells: seq<string>)
  {
    |cells| > 0 && cells[0] == TYPE_INPUT
  }

  predicate IsOutput(cells: seq<string>)
  {
    |cells| > 0 && cells[0] == TYPE_OUTPUT
  }

  /** The input rows, in order. */
  function Inputs(rows: seq<seq<string>>): seq<seq<string>>
  {
    if rows == [] then []
    else Inputs(rows[..|rows| - 1]) + (if IsInput(rows[|rows| - 1]) then [rows[|rows| - 1]] else [])
  }

  /** The output rows, in order. */
  function Outputs(rows: seq<seq<string>>): seq<seq<string>>
  {
    if rows == [] then []
    else Outputs(rows[..|rows| - 1]) + (if IsOutput(rows[|rows| - 1]) then [rows[|rows| - 1]] else [])
  }

  /** `cells[1]` of a row that has it. */
  function Name(cells: seq<string>): string
  {
    if |cells| > 1 then cells[1] else ""
  }

  /** `cells[2:]`: empty for a row of fewer than three cells. */
  function Data(cells: seq<string>): seq<string>
  {
    if |cells| > 2 then cells[2..] else []
  }

  function Names(rows: seq<seq<string>>): (r: seq<string>)
    ensures |r| == |rows|
  {
    seq(|rows|, i requires 0 <= i < |rows| => Name(rows[i]))
  }

  function DataOf(rows: seq<seq<string>>): (r: seq<seq<string>>)
    ensures |r| == |rows|
  {
    seq(|rows|, i requires 0 <= i < |rows| => Data(rows[i]))
  }

  function Min(a: int, b: int): int
  {
    if a < b then a else b
  }

  /** The output rows chip `c` receives: the `c`-th group of eight. */
  function ChipRows(outs: seq<seq<string>>, c: nat): seq<seq<string>>
  {
    outs[Min(ROWS_PER_CHIP * c, |outs|)..Min(ROWS_PER_CHIP * c + ROWS_PER_CHIP, |outs|)]
  }

  /** The lists of a table, read declaratively: the input rows in order,
      and the output rows dealt to the chips in groups of eight; output
      rows past the last chip are dropped. */
  function Collect(rows: seq<seq<string>>, chips: nat): Parsed
  {
    var ins, outs := Inputs(rows), Outputs(rows);
    Parsed(Names(ins), DataOf(ins),
      seq(chips, c requires 0 <= c < chips => Names(ChipRows(outs, c))),
      seq(chips, c requires 0 <= c < chips => DataOf(ChipRows(outs, c))))
  }

  /** Row `j` raises an IndexError: it has a type but no name, and it is
      an input row or an output row some chip keeps. */
  predicate ShortRow(rows: seq<seq<string>>, j: int, chips: nat)
    requires 0 <= j < |rows|
  {
    && |rows[j]| == 1
    && (rows[j][0] == TYPE_INPUT
        || (rows[j][0] == TYPE_OUTPUT && |Outputs(rows[..j])| / ROWS_PER_CHIP < chips))
  }

  /** The parsed table, or the IndexError of its first short row. */
  function ParseTable(rows: seq<seq<string>>, chips: nat): Result<Parsed, Raised>
  {
    if exists j :: 0 <= j < |rows| && ShortRow(rows, j, chips) then Err(IndexError)
    else Ok(Collect(rows, chips))
  }

  // ---------------------------------------------------------------------
  // The row loop
  // ---------------------------------------------------------------------

  /** One row added, with `k` output rows before it: an input row to the
      input lists, an output row to chip k / 8 if there is one. */
  function Step(p: Parsed, cells: seq<string>, k: nat, chips: nat): Parsed
    requires |p.outNames| == chips && |p.outputMatrix| == chips
  {
    if IsInput(cells) then
      p.(inNames := p.inNames + [Name(cells)], addressMatrix := p.addressMatrix + [Data(cells)])
    else if IsOutput(cells) && k / ROWS_PER_CHIP < chips then
      var c := k / ROWS_PER_CHIP;
      p.(outNames := p.outNames[c := p.outNames[c] + [Name(cells)]],
         outputMatrix := p.outputMatrix[c := p.outputMatrix[c] + [Data(cells)]])
    else p
  }

  /** The variables of the row loop: the lists, `outCount` and
      `chipCount`. */
  datatype RowState = RowState(parsed: Parsed, outCount: nat, chipCount: nat)

  /** The body of the row loop for one split line. */
  method ParseRow(st: RowState, lineSplit: seq<string>, chips: nat) returns (r: Result<RowState, Raised>)
    requires |st.parsed.outNames| == chips && |st.parsed.outputMatrix| == chips
    requires st.outCount < ROWS_PER_CHIP
    ensures var k := ROWS_PER_CHIP * st.chipCount + st.outCount;
      && (r.Err? <==>
            |lineSplit| == 1 && (IsInput(lineSplit) || (IsOutput(lineSplit) && k / ROWS_PER_CHIP < chips)))
      && (r.Err? ==> r.error == IndexError)
      && (r.Ok? ==>
            && r.value.parsed == Step(st.parsed, lineSplit, k, chips)
            && r.value.outCount < ROWS_PER_CHIP
            && ROWS_PER_CHIP * r.value.chipCount + r.value.outCount == k + (if IsOutput(lineSplit) then 1 else 0))
  {
    if |lineSplit| == 0 {
      return Ok(st);
    }
    var p, outCount, chipCount := st.parsed, st.outCount, st.chipCount;
    if lineSplit[0] == TYPE_INPUT {
      if |lineSplit| < 2 {
        return Err(IndexError);
      }
      p := p.(addressMatrix := p.addressMatrix + [Data(lineSplit)], inNames := p.inNames + [lineSplit[1]]);
    } else if lineSplit[0] == TYPE_OUTPUT {
      if chipCount < chips {
        if |lineSplit| < 2 {
          return Err(IndexError);
        }
        p := p.(outputMatrix := p.outputMatrix[chipCount := p.outputMatrix[chipCount] + [Data(lineSplit)]],
                outNames := p.outNames[chipCount := p.outNames[chipCount] + [lineSplit[1]]]);
      }
      outCount := outCount + 1;
      if outCount == ROWS_PER_CHIP {
        chipCount := chipCount + 1;
        outCount := 0;
      }
    }
    r := Ok(RowState(p, outCount, chipCount));
  }

  lemma InputsSnoc(rows: seq<seq<string>>, i: nat)
    requires i < |rows|
    ensures Inputs(rows[..i + 1]) == Inputs(rows[..i]) + (if IsInput(rows[i]) then [rows[i]] else [])
    ensures Outputs(rows[..i + 1]) == Outputs(rows[..i]) + (if IsOutput(rows[i]) then [rows[i]] else [])
  {
    assert rows[..i + 1][..i] == rows[..i];
  }

  /** A new output row joins the group of its index and no other. */
  lemma ChipRowsSnoc(outs: seq<seq<string>>, row: seq<string>, c: nat)
    ensures ChipRows(outs + [row], c) ==
      if c == |outs| / ROWS_PER_CHIP then ChipRows(outs, c) + [row] else ChipRows(outs, c)
  {
    var n := |outs|;
    var o := outs + [row];
    if c == n / ROWS_PER_CHIP {
      assert o[Min(8 * c, n + 1)..Min(8 * c + 8, n + 1)] == o[8 * c..n + 1];
      assert o[8 * c..n + 1] == outs[8 * c..n] + [row];
    } else if c < n / ROWS_PER_CHIP {
      assert 8 * c + 8 <= n;
      assert o[8 * c..8 * c + 8] == outs[8 * c..8 * c + 8];
    }
  }

  lemma NamesSnoc(rows: seq<seq<string>>, row: seq<string>)
    ensures Names(rows + [row]) == Names(rows) + [Name(row)]
    ensures DataOf(rows + [row]) == DataOf(rows) + [Data(row)]
  {
  }

  /** One more output row, read declaratively, is the step the loop
      takes. */
  lemma ChipListsSnoc(outs: seq<seq<string>>, row: seq<string>, chips: nat, c: nat)
    requires c < chips
    ensures Names(ChipRows(outs + [row], c)) ==
      if c == |outs| / ROWS_PER_CHIP then Names(ChipRows(outs, c)) + [Name(row)] else Names(ChipRows(outs, c))
    ensures DataOf(ChipRows(outs + [row], c)) ==
      if c == |outs| / ROWS_PER_CHIP then DataOf(ChipRows(outs, c)) + [Data(row)] else DataOf(ChipRows(outs, c))
  {
    ChipRowsSnoc(outs, row, c);
    NamesSnoc(ChipRows(outs, c), row);
  }

  /** The declarative lists of one more row are the loop's step. */
  lemma CollectSnoc(rows: seq<seq<string>>, i: nat, chips: nat)
    requires i < |rows|
    ensures Collect(rows[..i + 1], chips) == Step(Collect(rows[..i], chips), rows[i], |Outputs(rows[..i])|, chips)
  {
    InputsSnoc(rows, i);
    var p, q := Collect(rows[..i], chips), Collect(rows[..i + 1], chips);
    var outs, row := Outputs(rows[..i]), rows[i];
    if IsInput(row) {
      NamesSnoc(Inputs(rows[..i]), row);
      assert Outputs(rows[..i + 1]) == outs;
    } else if IsOutput(row) {
      forall c | 0 <= c < chips
        ensures q.outNames[c] == Step(p, row, |outs|, chips).outNames[c]
        ensures q.outputMatrix[c] == Step(p, row, |outs|, chips).outputMatrix[c]
      {
        ChipListsSnoc(outs, row, chips, c);
      }
      assert q.outNames == Step(p, row, |outs|, chips).outNames;
      assert q.outputMatrix == Step(p, row, |outs|, chips).outputMatrix;
      assert Inputs(rows[..i + 1]) == Inputs(rows[..i]);
    } else {
      assert Inputs(rows[..i + 1]) == Inputs(rows[..i]);
      assert Outputs(rows[..i + 1]) == outs;
    }
  }

  /** The loop variables after one more row are the declarative lists and
      output count of the longer prefix. */
  lemma RowKept(rows: seq<seq<string>>, i: nat, chips: nat, st: RowState, next: RowState)
    requires i < |rows|
    requires st.parsed == Collect(rows[..i], chips)
    requires ROWS_PER_CHIP * st.chipCount + st.outCount == |Outputs(rows[..i])|
    requires next.parsed == Step(st.parsed, rows[i], ROWS_PER_CHIP * st.chipCount + st.outCount, chips)
    requires ROWS_PER_CHIP * next.chipCount + next.outCount
          == ROWS_PER_CHIP * st.chipCount + st.outCount + (if IsOutput(rows[i]) then 1 else 0)
    ensures next.parsed == Collect(rows[..i + 1], chips)
    ensures ROWS_PER_CHIP * next.chipCount + next.outCount == |Outputs(rows[..i + 1])|
  {
    CollectSnoc(rows, i, chips);
    InputsSnoc(rows, i);
  }

  /** A short row makes the whole table raise. */
  lemma ShortRowRaises(rows: seq<seq<string>>, i: nat, chips: nat)
    requires i < |rows| && ShortRow(rows, i, chips)
    ensures ParseTable(rows, chips) == Err(IndexError)
  {
  }

  /** Before any row, every list is empty. */
  lemma CollectEmpty(rows: seq<seq<string>>, chips: nat)
    ensures Collect(rows[..0], chips) == Parsed([], [], seq(chips, c => []), seq(chips, c => []))
    ensures Outputs(rows[..0]) == []
  {
    assert rows[..0] == [];
  }

  /** `[item.strip() for item in line.split("|") if item.strip()]` of line
      `i`. */
  method SplitLine(lines: seq<string>, ghost rows: seq<seq<string>>, i: nat) returns (lineSplit: seq<string>)
    requires rows == CellRows(lines) && i < |lines|
    ensures lineSplit == rows[i]
  {
    lineSplit := Cells(lines[i]);
  }

  /** The loop variables after the first `i` rows: the declarative lists
      of those rows, their output count, and no short row among them. */
  ghost predicate Kept(rows: seq<seq<string>>, i: nat, chips: nat, st: RowState)
    requires i <= |rows|
  {
    && st.parsed == Collect(rows[..i], chips)
    && st.outCount < ROWS_PER_CHIP
    && ROWS_PER_CHIP * st.chipCount + st.outCount == |Outputs(rows[..i])|
    && forall j :: 0 <= j < i ==> !ShortRow(rows, j, chips)
  }

  /** One pass of the row loop: line `i` either raises, and then so does
      the whole table, or extends the lists. */
  method ParseLine(lines: seq<string>, ghost rows: seq<seq<string>>, i: nat, st: RowState, chips: nat)
    returns (step: Result<RowState, Raised>)
    requires rows == CellRows(lines) && i < |lines| && Kept(rows, i, chips, st)
    ensures step.Err? ==> step.error == IndexError && ParseTable(rows, chips) == Err(IndexError)
    ensures step.Ok? ==> Kept(rows, i + 1, chips, step.value)
  {
    var lineSplit := SplitLine(lines, rows, i);
    step := ParseRow(st, lineSplit, chips);
    if step.Err? {
      ShortRowRaises(rows, i, chips);
    } else {
      RowKept(rows, i, chips, st, step.value);
    }
  }

  /** With every row read and none short, the table parses to the lists. */
  lemma AllKept(rows: seq<seq<string>>, chips: nat, st: RowState)
    requires Kept(rows, |rows|, chips, st)
    ensures ParseTable(rows, chips) == Ok(st.parsed)
  {
    assert rows[..|rows|] == rows;
  }

  /** The row loop of `parseEachInstruction` over the lines of one table. */
  method ParseRows(lines: seq<string>, chips: nat) returns (r: Result<Parsed, Raised>)
    ensures r == ParseTable(CellRows(lines), chips)
  {
    ghost var rows := CellRows(lines);
    var noNames: seq<seq<string>> := seq(chips, c => []);
    var noRows: seq<seq<seq<string>>> := seq(chips, c => []);
    var st := RowState(Parsed([], [], noNames, noRows), 0, 0);
    CollectEmpty(rows, chips);
    for i := 0 to |lines|
      invariant Kept(rows, i, chips, st)
    {
      var step := ParseLine(lines, rows, i, st, chips);
      if step.Err? {
        return Err(IndexError);
      }
      st := step.value;
    }
    AllKept(rows, chips, st);
    r := Ok(st.parsed);
  }

  // ---------------------------------------------------------------------
  // What a parsed table holds
  // ---------------------------------------------------------------------

  /** The `k`-th output row is the `k % 8`-th row of chip `k / 8`. */
  lemma OutputRowPlace(outs: seq<seq<string>>, k: nat)
    requires k < |outs|
    ensures k % ROWS_PER_CHIP < |ChipRows(outs, k / ROWS_PER_CHIP)|
    ensures ChipRows(outs, k / ROWS_PER_CHIP)[k % ROWS_PER_CHIP] == outs[k]
  {
  }

  /** Together the chips hold the first 8 * chips output rows, in order,
      and nothing else. */
  lemma {:induction false} ChipsHoldPrefix(outs: seq<seq<string>>, chips: nat)
    ensures Flatten(seq(chips, c requires 0 <= c < chips => ChipRows(outs, c)))
         == outs[..Min(ROWS_PER_CHIP * chips, |outs|)]
  {
    if chips > 0 {
      var groups := seq(chips, c requires 0 <= c < chips => ChipRows(outs, c));
      var front := seq(chips - 1, c requires 0 <= c < chips - 1 => ChipRows(outs, c));
      assert groups[..chips - 1] == front;
      ChipsHoldPrefix(outs, chips - 1);
      var m := Min(ROWS_PER_CHIP * (chips - 1), |outs|);
      assert outs[..m] + ChipRows(outs, chips - 1) == outs[..Min(ROWS_PER_CHIP * chips, |outs|)];
    }
  }

  function Flatten<T>(groups: seq<seq<T>>): seq<T>
  {
    if groups == [] then [] else Flatten(groups[..|groups| - 1]) + groups[|groups| - 1]
  }

  /** No chip gets more than eight rows, so a packed data column is a
      byte. */
  lemma ChipRowsAtMostEight(outs: seq<seq<string>>, c: nat)
    ensures |ChipRows(outs, c)| <= ROWS_PER_CHIP
  {
  }

  /** Every chip of a parsed table holds at most eight rows, and all its
      rows came from the table. */
  lemma ParsedChipsSmall(rows: seq<seq<string>>, chips: nat)
    requires ParseTable(rows, chips).Ok?
    ensures var p := ParseTable(rows, chips).value;
      && |p.outputMatrix| == chips && |p.outNames| == chips
      && forall c :: 0 <= c < chips ==> |p.outputMatrix[c]| <= ROWS_PER_CHIP
  {
    var p := ParseTable(rows, chips).value;
    forall c | 0 <= c < chips
      ensures |p.outputMatrix[c]| <= ROWS_PER_CHIP
    {
      ChipRowsAtMostEight(Outputs(rows), c);
    }
  }

  /** A table with an input row that has no name raises. */
  lemma NamelessInputRaises(rows: seq<seq<string>>, j: nat, chips: nat)
    requires j < |rows| && rows[j] == [TYPE_INPUT]
    ensures ParseTable(rows, chips) == Err(IndexError)
  {
    assert ShortRow(rows, j, chips);
  }

  /** A nameless output row past the last chip is dropped without
      raising: the rows after the 8 * chips-th output row are never read. */
  lemma DroppedRowNotRead(rows: seq<seq<string>>, chips: nat)
    requires |rows| > 0 && rows[|rows| - 1] == [TYPE_OUTPUT]
    requires |Outputs(rows[..|rows| - 1])| / ROWS_PER_CHIP >= chips
    requires ParseTable(rows[..|rows| - 1], chips).Ok?
    ensures ParseTable(rows, chips) == Ok(Collect(rows, chips))
  {
    var n := |rows|;
    forall j | 0 <= j < n
      ensures !ShortRow(rows, j, chips)
    {
      if j < n - 1 {
        assert rows[..n - 1][j] == rows[j] && rows[..n - 1][..j] == rows[..j];
        assert !ShortRow(rows[..n - 1], j, chips);
      }
    }
  }
}

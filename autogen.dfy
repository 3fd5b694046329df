/** The autogen step of the microcode tools (`CreateAutogenIns.py`, and the
    same code in `ParseInstruction.py`). The rows of an instruction table
    are sorted by what their signal is in the configuration; the input and
    output control rows are then folded column by column into virtual pin
    lines: a column with one HIGH signal puts that signal's pin index on
    the virtual pins, least significant bit first; a column of only LOW
    entries puts 0 on every pin. Writing the autogen file is left out: the
    lines it would be written from are returned. */
module Autogen {
  import opened Common
  import opened Dict
  import opened MicrocodeConfig
  import opened TruthTable
  import opened InstructionText

  const INDEX_OF_SIGNAL_NAME := 1
  const INPUT_PINS := "InputControlPins"
  const OUTPUT_PINS := "OutputControlPins"
  const TYPE_IGNORE := "---"

  // ---------------------------------------------------------------------
  // One column
  // ---------------------------------------------------------------------

  /** What one column adds to every virtual pin: one bit of a pin index,
      a 0, or nothing. */
  datatype Column = Encode(index: int) | AllLow | Nothing

  /** The rest of a scan, after an index was taken from an earlier row:
      the scan still fails if a later row is too short. */
  function Finish(rest: Result<Column, Raised>, encoded: Option<int>): Result<Column, Raised>
  {
    if encoded.Some? && rest.Ok? then Ok(Encode(encoded.value)) else rest
  }

  /** The scan of column `c` from row `i` on, with `highFound` as the loop
      left it: a cell that is neither "1" nor "0" marks the column as found;
      a "1" after that ends the scan; the first "1" before it takes the
      row's pin index, which must be configured. */
  function Scan(rows: seq<seq<string>>, c: nat, signalIndex: Mapping<string, int>, i: nat, highFound: bool): Result<Column, Raised>
    decreases |rows| - i
  {
    if i >= |rows| then Ok(if highFound then Nothing else AllLow)
    else if |rows[i]| <= INDEX_OF_SIGNAL_NAME || |rows[i]| <= c then Err(IndexError)
    else
      var item := rows[i][c];
      if item != HIGH && item != LOW then Scan(rows, c, signalIndex, i + 1, true)
      else if item == HIGH && highFound then Ok(Nothing)
      else if item == HIGH then
        match Lookup(signalIndex, rows[i][INDEX_OF_SIGNAL_NAME])
        case None => Err(KeyError)
        case Some(index) => Finish(Scan(rows, c, signalIndex, i + 1, true), Some(index))
      else Scan(rows, c, signalIndex, i + 1, highFound)
  }

  /** The inner loop of `autogenInputSignalLines` over the rows, for one
      column. The pin bits it appends in place are appended by
      `AppendColumn` once the column is scanned; when a later row raises,
      the dictionary is lost either way. */
  method ScanColumn(rows: seq<seq<string>>, columnNo: nat, signalIndexDict: Mapping<string, int>)
    returns (outcome: Result<Column, Raised>)
    ensures outcome == Scan(rows, columnNo, signalIndexDict, 0, false)
  {
    var highFound := false;
    var encoded: Option<int> := None;
    var i := 0;
    while i < |rows|
      invariant 0 <= i <= |rows|
      invariant encoded.Some? ==> highFound
      invariant Scan(rows, columnNo, signalIndexDict, 0, false)
             == Finish(Scan(rows, columnNo, signalIndexDict, i, highFound), encoded)
    {
      var line := rows[i];
      if |line| <= INDEX_OF_SIGNAL_NAME || |line| <= columnNo {
        return Err(IndexError);
      }
      var signalName := line[INDEX_OF_SIGNAL_NAME];
      var item := line[columnNo];
      if item != HIGH && item != LOW {
        highFound := true;
        i := i + 1;
        continue;
      }
      if item == HIGH && highFound {
        break;
      }
      if item == HIGH {
        highFound := true;
        var index := Lookup(signalIndexDict, signalName);
        if index.None? {
          return Err(KeyError);
        }
        encoded := Some(index.value);
      }
      i := i + 1;
    }
    outcome := Finish(Ok(if highFound then Nothing else AllLow), encoded);
  }

  /** Every row has a signal name and a cell in column `c`. */
  predicate Wide(rows: seq<seq<string>>, c: nat)
  {
    forall i :: 0 <= i < |rows| ==> |rows[i]| > INDEX_OF_SIGNAL_NAME && |rows[i]| > c
  }

  /** The first row from `i` on whose cell in column `c` is not "0". */
  function FirstMark(rows: seq<seq<string>>, c: nat, i: nat): (f: nat)
    requires Wide(rows, c) && i <= |rows|
    ensures i <= f <= |rows|
    decreases |rows| - i
  {
    if i == |rows| then i
    else if rows[i][c] != LOW then i
    else FirstMark(rows, c, i + 1)
  }

  lemma {:induction false} ScanAfterFound(rows: seq<seq<string>>, c: nat, si: Mapping<string, int>, i: nat)
    requires Wide(rows, c) && i <= |rows|
    ensures Scan(rows, c, si, i, true) == Ok(Nothing)
    decreases |rows| - i
  {
    if i < |rows| && rows[i][c] != HIGH {
      ScanAfterFound(rows, c, si, i + 1);
    }
  }

  /** What a column adds, read off its first entry that is not "0": nothing
      at all when there is none but "0"s; nothing when it is not a "1"
      (the type and name columns, for instance); otherwise the pin index
      of that row. A "1" in a later row is ignored. */
  lemma {:induction false} ColumnOutcome(rows: seq<seq<string>>, c: nat, si: Mapping<string, int>, i: nat)
    requires Wide(rows, c) && i <= |rows|
    ensures var f := FirstMark(rows, c, i);
      Scan(rows, c, si, i, false) ==
        if f == |rows| then Ok(AllLow)
        else if rows[f][c] != HIGH then Ok(Nothing)
        else if Lookup(si, rows[f][INDEX_OF_SIGNAL_NAME]).None? then Err(KeyError)
        else Ok(Encode(Lookup(si, rows[f][INDEX_OF_SIGNAL_NAME]).value))
    decreases |rows| - i
  {
    if i < |rows| {
      if rows[i][c] == LOW {
        ColumnOutcome(rows, c, si, i + 1);
      } else {
        ScanAfterFound(rows, c, si, i + 1);
      }
    }
  }

  /** With two HIGH rows in a column, the first row's index is taken. */
  lemma FirstHighWins()
    ensures Scan([["O", "PCHI", "1"], ["O", "PCLO", "1"]], 2, [("PCHI", 5), ("PCLO", 6)], 0, false)
         == Ok(Encode(5))
  {
    var rows := [["O", "PCHI", "1"], ["O", "PCLO", "1"]];
    ColumnOutcome(rows, 2, [("PCHI", 5), ("PCLO", 6)], 0);
  }

  // ---------------------------------------------------------------------
  // The virtual pin lines
  // ---------------------------------------------------------------------

  /** The outcomes of columns 0 to n - 1, or the first error. */
  function Outcomes(rows: seq<seq<string>>, si: Mapping<string, int>, n: nat): Result<seq<Column>, Raised>
  {
    if n == 0 then Ok([])
    else
      match Outcomes(rows, si, n - 1)
      case Err(e) => Err(e)
      case Ok(done) =>
        match Scan(rows, n - 1, si, 0, false)
        case Err(e) => Err(e)
        case Ok(column) => Ok(done + [column])
  }

  /** Once a column raises, so does every longer run of columns. */
  lemma {:induction false} OutcomesKeepError(rows: seq<seq<string>>, si: Mapping<string, int>, n: nat, m: nat)
    requires n <= m && Outcomes(rows, si, n).Err?
    ensures Outcomes(rows, si, m) == Outcomes(rows, si, n)
    decreases m - n
  {
    if n < m {
      OutcomesKeepError(rows, si, n, m - 1);
    }
  }

  /** What one column puts on virtual pin `k`. */
  function Piece(column: Column, k: nat): seq<int>
  {
    match column
    case Encode(index) => [Bit(index, k)]
    case AllLow => [0]
    case Nothing => []
  }

  /** The line of virtual pin `k` after the given columns. */
  function Track(columns: seq<Column>, k: nat): seq<int>
  {
    if columns == [] then []
    else Track(columns[..|columns| - 1], k) + Piece(columns[|columns| - 1], k)
  }

  /** Each pin with its line. */
  function PinLines(pins: seq<string>, columns: seq<Column>): (d: Mapping<string, seq<int>>)
    ensures |d| == |pins|
  {
    seq(|pins|, k requires 0 <= k < |pins| => (pins[k], Track(columns, k)))
  }

  function VirtualPinsOf(config: Config): Mapping<string, seq<string>>
  {
    if config.virtualPins.Some? then PinNames(config.virtualPins.value) else []
  }

  /** The dictionary the autogen function returns for the rows of one
      section, or the error it raises: a missing pin section is a
      KeyError, no rows an IndexError. */
  function SignalLines(config: Config, rows: seq<seq<string>>, pinsKey: string, section: string)
    : Result<Mapping<string, seq<int>>, Raised>
  {
    match Lookup(VirtualPinsOf(config), pinsKey)
    case None => Err(KeyError)
    case Some(pins) =>
      if rows == [] then Err(IndexError)
      else
        match Outcomes(rows, Section(config, section), |rows[0]|)
        case Err(e) => Err(e)
        case Ok(columns) => Ok(PinLines(pins, columns))
  }

  /** Python's `index >> 1` once more is a division by the next power of
      two. */
  lemma ShiftStep(x: int, j: nat)
    ensures (x / Pow2(j)) / 2 == x / Pow2(j + 1)
  {
    var p := Pow2(j);
    var q, r := x / p, x % p;
    var a, b := q / 2, q % 2;
    assert x == p * q + r;
    assert x == (2 * p) * a + (p * b + r);
    assert 0 <= p * b + r < 2 * p by {
      assert p * b <= p;
    }
    DivUnique(x, 2 * p, a, p * b + r);
  }

  lemma TrackStep(columns: seq<Column>, column: Column, k: nat)
    ensures Track(columns + [column], k) == Track(columns, k) + Piece(column, k)
  {
    assert (columns + [column])[..|columns|] == columns;
  }

  /** One step of `AppendColumn`: the line of pin `j` is looked up and
      replaced by itself with the column's bit for that pin. */
  lemma ExtendLine(m: Mapping<string, seq<int>>, pins: seq<string>, j: nat,
                   columns: seq<Column>, column: Column, bit: int)
    requires forall i, k :: 0 <= i < k < |pins| ==> pins[i] != pins[k]
    requires j < |pins| == |m|
    requires forall k :: 0 <= k < |pins| ==>
      m[k] == (pins[k], Track(if k < j then columns + [column] else columns, k))
    requires Piece(column, j) == [bit]
    ensures Lookup(m, pins[j]) == Some(Track(columns, j))
    ensures Put(m, pins[j], Track(columns, j) + [bit]) == m[j := (pins[j], Track(columns + [column], j))]
  {
    LookupAt(m, pins[j], j);
    TrackStep(columns, column, j);
    PutAt(m, pins[j], Track(columns + [column], j), j);
  }

  /** A column that adds nothing leaves every line as it was. */
  lemma NothingKeepsLines(pins: seq<string>, columns: seq<Column>)
    ensures PinLines(pins, columns + [Nothing]) == PinLines(pins, columns)
  {
    forall k | 0 <= k < |pins|
      ensures Track(columns + [Nothing], k) == Track(columns, k)
    {
      TrackStep(columns, Nothing, k);
    }
  }

  /** Appending one column's bits to every pin line: `index & 1` then
      `index >>= 1` per pin for an encoded index, 0 per pin for an all-LOW
      column. */
  method AppendColumn(d: Mapping<string, seq<int>>, pins: seq<string>, ghost columns: seq<Column>, column: Column)
    returns (d': Mapping<string, seq<int>>)
    requires forall i, j :: 0 <= i < j < |pins| ==> pins[i] != pins[j]
    requires d == PinLines(pins, columns)
    ensures d' == PinLines(pins, columns + [column])
  {
    d' := d;
    if column.Nothing? {
      NothingKeepsLines(pins, columns);
      return;
    }
    var index := if column.Encode? then column.index else 0;
    for j := 0 to |pins|
      invariant |d'| == |pins|
      invariant index == (if column.Encode? then column.index / Pow2(j) else 0)
      invariant forall k :: 0 <= k < |pins| ==>
        d'[k] == (pins[k], Track(if k < j then columns + [column] else columns, k))
    {
      var signal := pins[j];
      var bit := if column.Encode? then index % 2 else 0;
      ExtendLine(d', pins, j, columns, column, bit);
      d' := Put(d', signal, Lookup(d', signal).value + [bit]);
      if column.Encode? {
        ShiftStep(column.index, j);
      }
      index := index / 2;
    }
  }

  /** `autogenInputSignalLines` and `autogenOutputSignalLines`, which
      differ only in the pin section and the config section they read. */
  method AutogenSignalLines(config: Config, signalLines: seq<seq<string>>, pinsKey: string, section: string)
    returns (r: Result<Mapping<string, seq<int>>, Raised>)
    requires Valid(config)
    ensures r == SignalLines(config, signalLines, pinsKey, section)
  {
    var virtualPins := GetAllVirtualPins(config);
    assert virtualPins == VirtualPinsOf(config);
    var found := Lookup(virtualPins, pinsKey);
    if found.None? {
      return Err(KeyError);
    }
    var pins := found.value;
    PinsDistinct(config, pinsKey);
    var autogenSignalDict: Mapping<string, seq<int>> := [];
    for k := 0 to |pins|
      invariant autogenSignalDict == PinLines(pins[..k], [])
    {
      PutNew(autogenSignalDict, pins[k], []);
      autogenSignalDict := Put(autogenSignalDict, pins[k], []);
      assert PinLines(pins[..k + 1], []) == PinLines(pins[..k], []) + [(pins[k], [])];
    }
    assert pins[..|pins|] == pins;
    if signalLines == [] {
      return Err(IndexError);
    }
    var totalColumnNo := |signalLines[0]|;
    var signalIndexDict := GetAllSignalIndex(section, config);
    ghost var columns: seq<Column> := [];
    for columnNo := 0 to totalColumnNo
      invariant Outcomes(signalLines, signalIndexDict, columnNo) == Ok(columns)
      invariant autogenSignalDict == PinLines(pins, columns)
    {
      var outcome := ScanColumn(signalLines, columnNo, signalIndexDict);
      if outcome.Err? {
        OutcomesKeepError(signalLines, signalIndexDict, columnNo + 1, totalColumnNo);
        return Err(outcome.error);
      }
      autogenSignalDict := AppendColumn(autogenSignalDict, pins, columns, outcome.value);
      columns := columns + [outcome.value];
    }
    r := Ok(autogenSignalDict);
  }

  /** The pins of a virtual-pin section are the keys of a mapping, so none
      repeats. */
  lemma PinsDistinct(config: Config, pinsKey: string)
    requires Valid(config) && Lookup(VirtualPinsOf(config), pinsKey).Some?
    ensures var pins := Lookup(VirtualPinsOf(config), pinsKey).value;
      forall i, j :: 0 <= i < j < |pins| ==> pins[i] != pins[j]
  {
    var names := VirtualPinsOf(config);
    LookupIsEntry(names, pinsKey);
    var e :| 0 <= e < |names| && names[e] == (pinsKey, Lookup(names, pinsKey).value);
    assert Lookup(names, pinsKey).value == Keys(config.virtualPins.value[e].1);
  }

  // ---------------------------------------------------------------------
  // What the lines say
  // ---------------------------------------------------------------------

  /** How many columns add a bit to every pin. */
  function Appended(columns: seq<Column>): nat
  {
    if columns == [] then 0
    else Appended(columns[..|columns| - 1]) + (if columns[|columns| - 1].Nothing? then 0 else 1)
  }

  /** Every pin line has one entry per column that adds one, so all pin
      lines have the same length. */
  lemma {:induction false} TrackLength(columns: seq<Column>, k: nat)
    ensures |Track(columns, k)| == Appended(columns)
    decreases |columns|
  {
    if columns != [] {
      TrackLength(columns[..|columns| - 1], k);
    }
  }

  /** The entries the `j`-th column adds sit at the same position of every
      pin line: bit `k` of the index on pin `k`, or 0 for an all-LOW
      column. */
  lemma {:induction false} TrackAt(columns: seq<Column>, j: nat, k: nat)
    requires j < |columns| && !columns[j].Nothing?
    ensures Appended(columns[..j]) < |Track(columns, k)|
    ensures Track(columns, k)[Appended(columns[..j])]
         == if columns[j].Encode? then Bit(columns[j].index, k) else 0
    decreases |columns|
  {
    var n := |columns|;
    var front := columns[..n - 1];
    TrackLength(front, k);
    TrackLength(columns, k);
    if j == n - 1 {
      assert columns[..j] == front;
    } else {
      assert front[..j] == columns[..j];
      TrackAt(front, j, k);
    }
  }

  /** The value a pin line column spells, the first pin the least
      significant bit. */
  function LsbValue(bits: seq<int>): int
  {
    if bits == [] then 0 else bits[0] + 2 * LsbValue(bits[1..])
  }

  /** x mod 2p from the low bit and the rest. */
  lemma ModDouble(x: int, p: nat)
    requires p >= 1
    ensures x % (2 * p) == 2 * ((x / 2) % p) + x % 2
  {
    var h, b := x / 2, x % 2;
    var q, r := h / p, h % p;
    assert x == 2 * h + b;
    assert h == p * q + r;
    assert x == (2 * p) * q + (2 * r + b);
    DivUnique(x, 2 * p, q, 2 * r + b);
  }

  /** Across `n` virtual pins, an encoded column spells the pin index
      modulo 2^n: the index is cut to the pins there are. */
  lemma {:induction false} EncodedValue(index: int, n: nat)
    ensures LsbValue(seq(n, k requires k >= 0 => Bit(index, k))) == index % Pow2(n)
    decreases n
  {
    var bits := seq(n, k requires k >= 0 => Bit(index, k));
    if n > 0 {
      var rest := seq(n - 1, k requires k >= 0 => Bit(index / 2, k));
      assert bits[1..] == rest by {
        forall k | 0 <= k < n - 1
          ensures bits[1..][k] == rest[k]
        {
          BitHalf(index, k);
        }
      }
      EncodedValue(index / 2, n - 1);
      assert bits[0] == index % 2;
      ModDouble(index, Pow2(n - 1));
    }
  }

  // ---------------------------------------------------------------------
  // Sorting the rows of a table
  // ---------------------------------------------------------------------

  /** Where a row goes. */
  datatype Placement = OtherRow | Dropped | ExtraRow | OutputRow | InputRow | Missing(name: string)

  /** The two tools that sort rows: `CreateAutogenIns.py` and
      `ParseInstruction.py`. */
  datatype Tool = CreateAutogen | ParseTool

  /** An output row's place by its signal's section; an unconfigured
      signal (index -1) raises. */
  function SignalPlacement(name: string, config: Config): Placement
  {
    var (pinIndex, sectionType) := LastSection(name, config, |Sections|);
    if pinIndex == -1 then Missing(name)
    else if sectionType == Some(EXTRA) then ExtraRow
    else if sectionType == Some(OUTPUT_CONTROL) then OutputRow
    else if sectionType == Some(INPUT_CONTROL) then InputRow
    else Dropped
  }

  /** `CreateAutogenIns.parseEachInstruction`: fewer than two cells, or a
      type other than "O", is kept as an other line; type "---" or signal
      "-" is dropped. */
  function AutogenPlacement(cells: seq<string>, config: Config): Placement
  {
    if |cells| < 2 then OtherRow
    else if cells[0] == TYPE_IGNORE || cells[INDEX_OF_SIGNAL_NAME] == "-" then Dropped
    else if cells[0] == TYPE_OUTPUT then SignalPlacement(cells[INDEX_OF_SIGNAL_NAME], config)
    else OtherRow
  }

  /** `ParseInstruction.parseEachInstruction`: fewer than two cells, a type
      other than "I" and "O", signal "-" and every "I" row are other
      lines. */
  function ParsePlacement(cells: seq<string>, config: Config): Placement
  {
    if |cells| < 2 then OtherRow
    else if cells[0] != TYPE_INPUT && cells[0] != TYPE_OUTPUT then OtherRow
    else if cells[INDEX_OF_SIGNAL_NAME] == "-" then OtherRow
    else if cells[0] == TYPE_INPUT then OtherRow
    else SignalPlacement(cells[INDEX_OF_SIGNAL_NAME], config)
  }

  function Place(tool: Tool, cells: seq<string>, config: Config): Placement
  {
    if tool == CreateAutogen then AutogenPlacement(cells, config) else ParsePlacement(cells, config)
  }

  /** The four lists rows are sorted into: other lines with their line
      index (the second tool keeps only the line), the input and output
      control rows as cells, and the extra-signal lines. */
  datatype Sorted = Sorted(other: seq<(string, int)>, inRows: seq<seq<string>>, outRows: seq<seq<string>>,
                           extLines: seq<string>)

  /** A row added to the lists by its place. */
  function AddRow(s: Sorted, placement: Placement, line: string, i: int, cells: seq<string>): Sorted
  {
    match placement
    case OtherRow => s.(other := s.other + [(line, i)])
    case ExtraRow => s.(extLines := s.extLines + [line])
    case OutputRow => s.(outRows := s.outRows + [cells])
    case InputRow => s.(inRows := s.inRows + [cells])
    case _ => s
  }

  /** Each line of a table with its cells. */
  function Rows(lines: seq<string>): (rows: seq<(string, seq<string>)>)
    ensures |rows| == |lines|
  {
    seq(|lines|, i requires 0 <= i < |lines| => (lines[i], Cells(lines[i])))
  }

  /** One row sorted into the lists, or the error of an unconfigured
      signal. */
  function SortStep(tool: Tool, s: Sorted, line: string, i: int, cells: seq<string>, config: Config): Result<Sorted, Raised>
  {
    var placement := Place(tool, cells, config);
    if placement.Missing? then Err(SignalMissing(placement.name))
    else Ok(AddRow(s, placement, line, i, cells))
  }

  /** The lists after the given rows, or the error the first unconfigured
      signal raises. */
  function SortLines(tool: Tool, rows: seq<(string, seq<string>)>, config: Config): Result<Sorted, Raised>
  {
    if rows == [] then Ok(Sorted([], [], [], []))
    else
      var prev := SortLines(tool, rows[..|rows| - 1], config);
      var (line, cells) := rows[|rows| - 1];
      if prev.Err? then prev
      else SortStep(tool, prev.value, line, |rows| - 1, cells, config)
  }

  lemma SortLinesSnoc(tool: Tool, rows: seq<(string, seq<string>)>, i: nat, config: Config)
    requires i < |rows|
    ensures SortLines(tool, rows[..i + 1], config) ==
      var prev := SortLines(tool, rows[..i], config);
      if prev.Err? then prev else SortStep(tool, prev.value, rows[i].0, i, rows[i].1, config)
  {
    assert rows[..i + 1][..i] == rows[..i];
  }

  /** Once a row raises, the whole table does. */
  lemma {:induction false} OrderKeepsError(tool: Tool, rows: seq<(string, seq<string>)>, config: Config, n: nat)
    requires n <= |rows| && SortLines(tool, rows[..n], config).Err?
    ensures SortLines(tool, rows, config) == SortLines(tool, rows[..n], config)
    decreases |rows| - n
  {
    if n < |rows| {
      assert rows[..n + 1][..n] == rows[..n];
      OrderKeepsError(tool, rows, config, n + 1);
    } else {
      assert rows[..n] == rows;
    }
  }

  /** The body of the row loop of `parseEachInstruction`, for a row
      already split into cells. */
  method SortRow(tool: Tool, s: Sorted, line: string, otherLineIndex: int, lineSplit: seq<string>, config: Config)
    returns (r: Result<Sorted, Raised>)
    ensures r == SortStep(tool, s, line, otherLineIndex, lineSplit, config)
  {
    if |lineSplit| < 2 {
      return Ok(s.(other := s.other + [(line, otherLineIndex)]));
    }
    var signalName := lineSplit[INDEX_OF_SIGNAL_NAME];
    var placement := Place(tool, lineSplit, config);
    if placement.Missing? {
      return Err(SignalMissing(signalName));
    }
    r := Ok(AddRow(s, placement, line, otherLineIndex, lineSplit));
  }

  /** The row loop of `parseEachInstruction`. */
  method SortRows(tool: Tool, lines: seq<string>, config: Config) returns (r: Result<Sorted, Raised>)
    ensures r == SortLines(tool, Rows(lines), config)
  {
    ghost var rows := Rows(lines);
    var s := Sorted([], [], [], []);
    for otherLineIndex := 0 to |lines|
      invariant SortLines(tool, rows[..otherLineIndex], config) == Ok(s)
    {
      var line := lines[otherLineIndex];
      var lineSplit := Cells(line);
      SortLinesSnoc(tool, rows, otherLineIndex, config);
      assert rows[otherLineIndex] == (line, lineSplit);
      var step := SortRow(tool, s, line, otherLineIndex, lineSplit, config);
      if step.Err? {
        OrderKeepsError(tool, rows, config, otherLineIndex + 1);
        return step;
      }
      s := step.value;
    }
    assert rows[..|lines|] == rows;
    r := Ok(s);
  }

  /** The sorted control rows are output rows of configured signals of
      their section, with at least a type and a name. */
  lemma {:induction false} SortedRows(tool: Tool, rows: seq<(string, seq<string>)>, config: Config)
    requires SortLines(tool, rows, config).Ok?
    ensures var s := SortLines(tool, rows, config).value;
      && (forall row :: row in s.inRows ==>
            |row| >= 2 && row[0] == TYPE_OUTPUT && SignalPlacement(row[INDEX_OF_SIGNAL_NAME], config) == InputRow)
      && (forall row :: row in s.outRows ==>
            |row| >= 2 && row[0] == TYPE_OUTPUT && SignalPlacement(row[INDEX_OF_SIGNAL_NAME], config) == OutputRow)
    decreases |rows|
  {
    if rows != [] {
      SortedRows(tool, rows[..|rows| - 1], config);
      ControlPlacement(tool, rows[|rows| - 1].1, config);
    }
  }

  /** A row placed among the control rows is an "O" row with a name, placed
      by its signal's section. */
  lemma ControlPlacement(tool: Tool, cells: seq<string>, config: Config)
    ensures Place(tool, cells, config) == InputRow || Place(tool, cells, config) == OutputRow ==>
      |cells| >= 2 && cells[0] == TYPE_OUTPUT
      && SignalPlacement(cells[INDEX_OF_SIGNAL_NAME], config) == Place(tool, cells, config)
  {
  }

  /** The other lines are exactly the rows placed as other lines, each
      with its own line index. */
  lemma {:induction false} OtherLines(tool: Tool, rows: seq<(string, seq<string>)>, config: Config)
    requires SortLines(tool, rows, config).Ok?
    ensures forall i :: 0 <= i < |rows| && Place(tool, rows[i].1, config) == OtherRow ==>
              (rows[i].0, i) in SortLines(tool, rows, config).value.other
    ensures forall e :: e in SortLines(tool, rows, config).value.other ==>
              0 <= e.1 < |rows| && rows[e.1].0 == e.0 && Place(tool, rows[e.1].1, config) == OtherRow
    decreases |rows|
  {
    if rows != [] {
      var front := rows[..|rows| - 1];
      OtherLines(tool, front, config);
      forall i | 0 <= i < |front|
        ensures front[i] == rows[i]
      {
      }
    }
  }

  /** Sorting fails exactly when some row is an output row of a signal the
      configuration does not have. */
  lemma {:induction false} SortFailsOnMissing(tool: Tool, rows: seq<(string, seq<string>)>, config: Config)
    ensures SortLines(tool, rows, config).Err? <==>
      exists i :: 0 <= i < |rows| && Place(tool, rows[i].1, config).Missing?
    decreases |rows|
  {
    if rows != [] {
      var front := rows[..|rows| - 1];
      SortFailsOnMissing(tool, front, config);
      if exists i :: 0 <= i < |front| && Place(tool, front[i].1, config).Missing? {
        var i :| 0 <= i < |front| && Place(tool, front[i].1, config).Missing?;
        assert rows[i] == front[i];
      }
      if exists i :: 0 <= i < |rows| && Place(tool, rows[i].1, config).Missing? {
        var i :| 0 <= i < |rows| && Place(tool, rows[i].1, config).Missing?;
        if i < |front| {
          assert front[i] == rows[i];
        }
      }
    }
  }

  // ---------------------------------------------------------------------
  // One instruction
  // ---------------------------------------------------------------------

  /** What the autogen file of an instruction is written from. */
  datatype InstructionLines = InstructionLines(
    name: Option<string>, sorted: Sorted,
    inLines: Mapping<string, seq<int>>, outLines: Mapping<string, seq<int>>)

  function InstructionSpec(tool: Tool, config: Config, text: string): Result<InstructionLines, Raised>
  {
    var lines := Lines(text);
    match SortLines(tool, Rows(lines), config)
    case Err(e) => Err(e)
    case Ok(s) =>
      match SignalLines(config, s.inRows, INPUT_PINS, INPUT_CONTROL)
      case Err(e) => Err(e)
      case Ok(a) =>
        match SignalLines(config, s.outRows, OUTPUT_PINS, OUTPUT_CONTROL)
        case Err(e) => Err(e)
        case Ok(b) => Ok(InstructionLines(NameFrom(lines, 0), s, a, b))
  }

  /** The body of `parseEachInstruction`'s loop for one instruction table. */
  method AutogenInstruction(tool: Tool, config: Config, text: string) returns (r: Result<InstructionLines, Raised>)
    requires Valid(config)
    ensures r == InstructionSpec(tool, config, text)
  {
    var lines := Lines(text);
    var instructionName := FindName(lines);
    var sorted := SortRows(tool, lines, config);
    if sorted.Err? {
      return Err(sorted.error);
    }
    var autogenInSignalDict := AutogenSignalLines(config, sorted.value.inRows, INPUT_PINS, INPUT_CONTROL);
    if autogenInSignalDict.Err? {
      return Err(autogenInSignalDict.error);
    }
    var autogenOutSignalDict := AutogenSignalLines(config, sorted.value.outRows, OUTPUT_PINS, OUTPUT_CONTROL);
    if autogenOutSignalDict.Err? {
      return Err(autogenOutSignalDict.error);
    }
    r := Ok(InstructionLines(instructionName, sorted.value, autogenInSignalDict.value, autogenOutSignalDict.value));
  }

  /** `GenAutoInstructions.parseEachInstruction`: every table in turn; the
      first exception ends the run. */
  method CreateAutogenInstructions(config: Config, insObjects: seq<string>)
    returns (r: Result<seq<InstructionLines>, Raised>)
    requires Valid(config)
    ensures r.Ok? ==>
      && |r.value| == |insObjects|
      && forall i :: 0 <= i < |insObjects| ==> InstructionSpec(CreateAutogen, config, insObjects[i]) == Ok(r.value[i])
    ensures r.Err? ==>
      exists i :: (0 <= i < |insObjects|
        && InstructionSpec(CreateAutogen, config, insObjects[i]) == Err(r.error)
        && forall j :: 0 <= j < i ==> InstructionSpec(CreateAutogen, config, insObjects[j]).Ok?)
  {
    var done: seq<InstructionLines> := [];
    for i := 0 to |insObjects|
      invariant |done| == i
      invariant forall j :: 0 <= j < i ==> InstructionSpec(CreateAutogen, config, insObjects[j]) == Ok(done[j])
    {
      var lines := AutogenInstruction(CreateAutogen, config, insObjects[i]);
      if lines.Err? {
        return Err(lines.error);
      }
      done := done + [lines.value];
    }
    r := Ok(done);
  }
}

/** `generateAddressDataMap` of the two EEPROM table generators: every
    parsed instruction table is turned around into columns, and each column
    writes the value of its output bits, one bank per chip, at every address
    its input cells match ("1", "0" or don't-care). Later writes overwrite
    earlier ones; the banks start as zeros. */
module MicrocodeBanks {
  import opened Common
  import opened Dict
  import opened MicrocodeConfig
  import opened TruthTable
  import opened MicrocodeTables

  // ---------------------------------------------------------------------
  // Turning a matrix around
  // ---------------------------------------------------------------------

  /** The columns of a list of rows, as far as the first row reaches:
      IndexError for no rows (`addressMatrix[0]`) or for a row shorter than
      the first (`row[i]`). Cells past the first row's length are ignored. */
  function Columns(m: seq<seq<string>>): (r: Result<seq<seq<string>>, Raised>)
    ensures r.Err? ==> r.error == IndexError
  {
    if m == [] then Err(IndexError)
    else if exists j :: 0 <= j < |m| && |m[j]| < |m[0]| then Err(IndexError)
    else Ok(seq(|m[0]|, i requires 0 <= i < |m[0]| => seq(|m|, j requires 0 <= j < |m| => m[j][i])))
  }

  /** The nested loops that build `addressDataMap` and `dataDataMap`. */
  method Transpose(m: seq<seq<string>>) returns (r: Result<seq<seq<string>>, Raised>)
    ensures r == Columns(m)
  {
    if |m| == 0 {
      return Err(IndexError);
    }
    var columns: seq<seq<string>> := [];
    for i := 0 to |m[0]|
      invariant forall j :: 0 <= j < |m| ==> |m[j]| >= i
      invariant columns == seq(i, k requires 0 <= k < i => seq(|m|, j requires 0 <= j < |m| => m[j][k]))
    {
      var temp: seq<string> := [];
      for j := 0 to |m|
        invariant forall t :: 0 <= t < j ==> |m[t]| > i
        invariant temp == seq(j, t requires 0 <= t < j => m[t][i])
      {
        if |m[j]| <= i {
          return Err(IndexError);
        }
        temp := temp + [m[j][i]];
      }
      columns := columns + [temp];
    }
    r := Ok(columns);
  }

  /** Every row as long as the first, and at least one cell. */
  predicate Rectangular(m: seq<seq<string>>)
  {
    m != [] && |m[0]| > 0 && forall j :: 0 <= j < |m| ==> |m[j]| == |m[0]|
  }

  /** Turning a rectangular matrix around twice gives it back. */
  lemma ColumnsTwice(m: seq<seq<string>>)
    requires Rectangular(m)
    ensures Columns(m).Ok? && Rectangular(Columns(m).value)
    ensures Columns(Columns(m).value) == Ok(m)
  {
    var t := seq(|m[0]|, i requires 0 <= i < |m[0]| => seq(|m|, j requires 0 <= j < |m| => m[j][i]));
    assert Columns(m) == Ok(t);
    assert !exists i :: 0 <= i < |t| && |t[i]| < |t[0]|;
    var back := seq(|t[0]|, j requires 0 <= j < |t[0]| => seq(|t|, i requires 0 <= i < |t| => t[i][j]));
    assert Columns(t) == Ok(back);
    forall j | 0 <= j < |m|
      ensures back[j] == m[j]
    {
    }
    assert back == m;
  }

  /** Column `i` has one cell per row: the `i`-th cell of each. */
  lemma ColumnCells(m: seq<seq<string>>, i: nat)
    requires Columns(m).Ok? && i < |Columns(m).value|
    ensures |Columns(m).value[i]| == |m|
    ensures forall j :: 0 <= j < |m| ==> i < |m[j]| && Columns(m).value[i][j] == m[j][i]
  {
  }

  // ---------------------------------------------------------------------
  // The banks as a log of writes
  // ---------------------------------------------------------------------

  /** One column written: `value` at every address of `chip` that the
      input cells `addresses` match. */
  datatype Write = Write(chip: nat, addresses: seq<string>, value: nat)

  predicate Covers(w: Write, c: nat, a: nat)
  {
    w.chip == c && Matches(a, w.addresses)
  }

  /** Byte `a` of bank `c` after the writes of `log` on zeroed banks. */
  function Cell(log: seq<Write>, c: nat, a: nat): nat
  {
    if log == [] then 0
    else if Covers(log[|log| - 1], c, a) then log[|log| - 1].value
    else Cell(log[..|log| - 1], c, a)
  }

  /** The last write that covers a byte decides it. */
  lemma {:induction false} CellIsLast(log: seq<Write>, c: nat, a: nat, k: nat)
    requires k < |log| && Covers(log[k], c, a)
    requires forall t :: k < t < |log| ==> !Covers(log[t], c, a)
    ensures Cell(log, c, a) == log[k].value
    decreases |log|
  {
    if k < |log| - 1 {
      var front := log[..|log| - 1];
      assert forall t :: k < t < |front| ==> front[t] == log[t];
      CellIsLast(front, c, a, k);
    }
  }

  /** A byte no write covers stays zero. */
  lemma {:induction false} CellUntouched(log: seq<Write>, c: nat, a: nat)
    requires forall t :: 0 <= t < |log| ==> !Covers(log[t], c, a)
    ensures Cell(log, c, a) == 0
    decreases |log|
  {
    if log != [] {
      var front := log[..|log| - 1];
      assert forall t :: 0 <= t < |front| ==> front[t] == log[t];
      CellUntouched(front, c, a);
    }
  }

  /** Every value written is below `bound`. */
  ghost predicate Bounded(log: seq<Write>, bound: nat)
  {
    forall t :: 0 <= t < |log| ==> log[t].value < bound
  }

  /** Bytes in, bytes out: when every write is below `bound`, so is every
      cell. */
  lemma {:induction false} CellBounded(log: seq<Write>, bound: nat, c: nat, a: nat)
    requires bound > 0 && Bounded(log, bound)
    ensures Cell(log, c, a) < bound
    decreases |log|
  {
    if log != [] && !Covers(log[|log| - 1], c, a) {
      var front := log[..|log| - 1];
      assert forall t :: 0 <= t < |front| ==> front[t] == log[t];
      CellBounded(front, bound, c, a);
    }
  }

  /** The banks hold what the log says. */
  ghost predicate Holds(banks: array2<nat>, log: seq<Write>)
    reads banks
  {
    forall c, a :: 0 <= c < banks.Length0 && 0 <= a < banks.Length1 ==> banks[c, a] == Cell(log, c, a)
  }

  // ---------------------------------------------------------------------
  // Which writes a table makes
  // ---------------------------------------------------------------------

  /** Every address the input cells match lies in a bank of `size` bytes. */
  ghost predicate Fits(addresses: seq<string>, size: nat)
  {
    forall a: nat :: Matches(a, addresses) ==> a < size
  }

  /** The error of a result, if any. */
  function ErrorOf<T>(r: Result<T, Raised>): (e: Option<Raised>)
    ensures e.Some? <==> r.Err?
    ensures r.Err? ==> e.value == r.error
  {
    if r.Err? then Some(r.error) else None
  }

  /** Column `index` of chip `c`: IndexError when the chip has fewer data
      columns; for a table without a name (`instruction.lower()` on None in
      the chip-aware generator) the first address is written and then
      AttributeError is raised, unless that address is already out of the
      bank; otherwise IndexError when a matched address is out of the bank. */
  ghost function ColumnWrite(size: nat, nameMissing: bool, c: nat, addrCol: seq<string>,
                             dataCols: seq<seq<string>>, index: nat): Result<Write, Raised>
  {
    if index >= |dataCols| then Err(IndexError)
    else if nameMissing then (if ValueOf(addrCol) >= size then Err(IndexError) else Err(AttributeError))
    else if !Fits(addrCol, size) then Err(IndexError)
    else Ok(Write(c, addrCol, ValueOf(dataCols[index])))
  }

  /** The writes of the first `n` columns of chip `c`. */
  ghost function ColumnWrites(size: nat, nameMissing: bool, c: nat, addrCols: seq<seq<string>>,
                              dataCols: seq<seq<string>>, n: nat): Result<seq<Write>, Raised>
    requires n <= |addrCols|
  {
    if n == 0 then Ok([])
    else
      match ColumnWrites(size, nameMissing, c, addrCols, dataCols, n - 1)
      case Err(e) => Err(e)
      case Ok(done) =>
        match ColumnWrite(size, nameMissing, c, addrCols[n - 1], dataCols, n - 1)
        case Err(e) => Err(e)
        case Ok(w) => Ok(done + [w])
  }

  lemma {:induction false} ColumnWritesKeepError(size: nat, nameMissing: bool, c: nat, addrCols: seq<seq<string>>,
                                                 dataCols: seq<seq<string>>, n: nat, m: nat)
    requires n <= m <= |addrCols| && ColumnWrites(size, nameMissing, c, addrCols, dataCols, n).Err?
    ensures ColumnWrites(size, nameMissing, c, addrCols, dataCols, m) == ColumnWrites(size, nameMissing, c, addrCols, dataCols, n)
    decreases m
  {
    if n < m {
      ColumnWritesKeepError(size, nameMissing, c, addrCols, dataCols, n, m - 1);
    }
  }

  /** The writes of chip `c`: KeyError when the table has no such chip
      (`dataMatrix[chip]`), the error of turning its rows around, or one
      write per address column. */
  ghost function ChipWrites(size: nat, nameMissing: bool, c: nat, addrCols: seq<seq<string>>,
                            outputMatrix: seq<seq<seq<string>>>): Result<seq<Write>, Raised>
  {
    if c >= |outputMatrix| then Err(KeyError)
    else
      match Columns(outputMatrix[c])
      case Err(e) => Err(e)
      case Ok(dataCols) => ColumnWrites(size, nameMissing, c, addrCols, dataCols, |addrCols|)
  }

  /** The writes of the chips below `n`, chip by chip. */
  ghost function ChipsWrites(size: nat, nameMissing: bool, addrCols: seq<seq<string>>,
                             outputMatrix: seq<seq<seq<string>>>, n: nat): Result<seq<Write>, Raised>
  {
    if n == 0 then Ok([])
    else
      match ChipsWrites(size, nameMissing, addrCols, outputMatrix, n - 1)
      case Err(e) => Err(e)
      case Ok(done) =>
        match ChipWrites(size, nameMissing, n - 1, addrCols, outputMatrix)
        case Err(e) => Err(e)
        case Ok(ws) => Ok(done + ws)
  }

  /** One more chip whose writes succeed adds its writes at the end. */
  lemma ChipsWritesStep(size: nat, nameMissing: bool, addrCols: seq<seq<string>>,
                        outputMatrix: seq<seq<seq<string>>>, c: nat, done: seq<Write>)
    requires ChipsWrites(size, nameMissing, addrCols, outputMatrix, c) == Ok(done)
    requires ChipWrites(size, nameMissing, c, addrCols, outputMatrix).Ok?
    ensures ChipsWrites(size, nameMissing, addrCols, outputMatrix, c + 1)
      == Ok(done + ChipWrites(size, nameMissing, c, addrCols, outputMatrix).value)
  {
  }

  lemma {:induction false} ChipsWritesKeepError(size: nat, nameMissing: bool, addrCols: seq<seq<string>>,
                                                outputMatrix: seq<seq<seq<string>>>, n: nat, m: nat)
    requires n <= m && ChipsWrites(size, nameMissing, addrCols, outputMatrix, n).Err?
    ensures ChipsWrites(size, nameMissing, addrCols, outputMatrix, m) == ChipsWrites(size, nameMissing, addrCols, outputMatrix, n)
    decreases m
  {
    if n < m {
      ChipsWritesKeepError(size, nameMissing, addrCols, outputMatrix, n, m - 1);
    }
  }

  /** Only the chip-aware generator uses the name while writing. */
  predicate NameMissing(g: Generator, name: Option<string>)
  {
    g.ChipGenerator? && name.None?
  }

  /** The writes of one parsed table. */
  ghost function TableWrites(g: Generator, name: Option<string>, p: Parsed): Result<seq<Write>, Raised>
  {
    match Columns(p.addressMatrix)
    case Err(e) => Err(e)
    case Ok(addrCols) => ChipsWrites(BankSize(g), NameMissing(g, name), addrCols, p.outputMatrix, ChipCount(g))
  }

  /** The writes of the first `n` stored tables, in the dictionary's order. */
  ghost function AllWrites(g: Generator, data: Mapping<Option<string>, Parsed>, n: nat): Result<seq<Write>, Raised>
    requires n <= |data|
  {
    if n == 0 then Ok([])
    else
      match AllWrites(g, data, n - 1)
      case Err(e) => Err(e)
      case Ok(done) =>
        match TableWrites(g, data[n - 1].0, data[n - 1].1)
        case Err(e) => Err(e)
        case Ok(ws) => Ok(done + ws)
  }

  lemma {:induction false} AllWritesKeepError(g: Generator, data: Mapping<Option<string>, Parsed>, n: nat, m: nat)
    requires n <= m <= |data| && AllWrites(g, data, n).Err?
    ensures AllWrites(g, data, m) == AllWrites(g, data, n)
    decreases m
  {
    if n < m {
      AllWritesKeepError(g, data, n, m - 1);
    }
  }

  // ---------------------------------------------------------------------
  // Every byte written is a byte
  // ---------------------------------------------------------------------

  lemma {:induction false} Pow2Mono(m: nat, n: nat)
    requires m <= n
    ensures Pow2(m) <= Pow2(n)
    decreases n
  {
    if m < n {
      Pow2Mono(m, n - 1);
    }
  }

  lemma BoundedAppend(a: seq<Write>, b: seq<Write>, bound: nat)
    requires Bounded(a, bound) && Bounded(b, bound)
    ensures Bounded(a + b, bound)
  {
    forall t | 0 <= t < |a + b|
      ensures (a + b)[t].value < bound
    {
      if t >= |a| {
        assert (a + b)[t] == b[t - |a|];
      }
    }
  }

  /** No chip of a table holds more than eight output rows. */
  ghost predicate SmallChips(p: Parsed)
  {
    forall c :: 0 <= c < |p.outputMatrix| ==> |p.outputMatrix[c]| <= ROWS_PER_CHIP
  }

  lemma {:induction false} ColumnWritesBytes(size: nat, nameMissing: bool, c: nat, addrCols: seq<seq<string>>,
                                             dataCols: seq<seq<string>>, n: nat)
    requires n <= |addrCols| && ColumnWrites(size, nameMissing, c, addrCols, dataCols, n).Ok?
    requires forall i :: 0 <= i < |dataCols| ==> |dataCols[i]| <= ROWS_PER_CHIP
    ensures Bounded(ColumnWrites(size, nameMissing, c, addrCols, dataCols, n).value, 256)
  {
    if n > 0 {
      ColumnWritesBytes(size, nameMissing, c, addrCols, dataCols, n - 1);
      var cells := dataCols[n - 1];
      ValueOfBits(cells);
      Pow2Mono(|cells|, ROWS_PER_CHIP);
      assert Pow2(ROWS_PER_CHIP) == 256;
      var done := ColumnWrites(size, nameMissing, c, addrCols, dataCols, n - 1).value;
      var w := ColumnWrite(size, nameMissing, c, addrCols[n - 1], dataCols, n - 1).value;
      BoundedAppend(done, [w], 256);
    }
  }

  lemma ChipWritesBytes(size: nat, nameMissing: bool, c: nat, addrCols: seq<seq<string>>,
                        outputMatrix: seq<seq<seq<string>>>)
    requires ChipWrites(size, nameMissing, c, addrCols, outputMatrix).Ok?
    requires c < |outputMatrix| ==> |outputMatrix[c]| <= ROWS_PER_CHIP
    ensures Bounded(ChipWrites(size, nameMissing, c, addrCols, outputMatrix).value, 256)
  {
    var dataCols := Columns(outputMatrix[c]).value;
    forall i | 0 <= i < |dataCols|
      ensures |dataCols[i]| <= ROWS_PER_CHIP
    {
      ColumnCells(outputMatrix[c], i);
    }
    ColumnWritesBytes(size, nameMissing, c, addrCols, dataCols, |addrCols|);
  }

  lemma {:induction false} ChipsWritesBytes(size: nat, nameMissing: bool, addrCols: seq<seq<string>>,
                                            outputMatrix: seq<seq<seq<string>>>, n: nat)
    requires ChipsWrites(size, nameMissing, addrCols, outputMatrix, n).Ok?
    requires forall c :: 0 <= c < |outputMatrix| ==> |outputMatrix[c]| <= ROWS_PER_CHIP
    ensures Bounded(ChipsWrites(size, nameMissing, addrCols, outputMatrix, n).value, 256)
  {
    if n > 0 {
      ChipsWritesBytes(size, nameMissing, addrCols, outputMatrix, n - 1);
      ChipWritesBytes(size, nameMissing, n - 1, addrCols, outputMatrix);
      BoundedAppend(ChipsWrites(size, nameMissing, addrCols, outputMatrix, n - 1).value,
                    ChipWrites(size, nameMissing, n - 1, addrCols, outputMatrix).value, 256);
    }
  }

  lemma {:induction false} AllWritesBytes(g: Generator, data: Mapping<Option<string>, Parsed>, n: nat)
    requires n <= |data| && AllWrites(g, data, n).Ok?
    requires forall i :: 0 <= i < |data| ==> SmallChips(data[i].1)
    ensures Bounded(AllWrites(g, data, n).value, 256)
  {
    if n > 0 {
      AllWritesBytes(g, data, n - 1);
      var (name, p) := data[n - 1];
      var addrCols := Columns(p.addressMatrix).value;
      ChipsWritesBytes(BankSize(g), NameMissing(g, name), addrCols, p.outputMatrix, ChipCount(g));
      BoundedAppend(AllWrites(g, data, n - 1).value, TableWrites(g, name, p).value, 256);
    }
  }

  /** When no table gives a chip more than eight output rows, every byte
      of every bank is below 256. */
  lemma BanksAreBytes(g: Generator, data: Mapping<Option<string>, Parsed>, c: nat, a: nat)
    requires AllWrites(g, data, |data|).Ok?
    requires forall i :: 0 <= i < |data| ==> SmallChips(data[i].1)
    ensures Cell(AllWrites(g, data, |data|).value, c, a) < 256
  {
    AllWritesBytes(g, data, |data|);
    CellBounded(AllWrites(g, data, |data|).value, 256, c, a);
  }

  // ---------------------------------------------------------------------
  // Filling the banks
  // ---------------------------------------------------------------------

  /** One address column of one chip: every matching address of the bank
      gets the column's value. */
  method WriteColumn(banks: array2<nat>, c: nat, nameMissing: bool, addrCol: seq<string>,
                     dataCols: seq<seq<string>>, index: nat, ghost log: seq<Write>)
    returns (raised: Option<Raised>)
    requires c < banks.Length0 && Holds(banks, log)
    modifies banks
    ensures var w := ColumnWrite(banks.Length1, nameMissing, c, addrCol, dataCols, index);
      && raised == ErrorOf(w)
      && (w.Ok? ==> Holds(banks, log + [w.value]))
  {
    var addresses := GetPossibleValueCombinations(addrCol);
    if index >= |dataCols| {
      return Some(IndexError);
    }
    var value := GetValueFromList(dataCols[index]);
    for k := 0 to |addresses|
      invariant nameMissing ==> k == 0
      invariant forall t :: 0 <= t < k ==> addresses[t] < banks.Length1
      invariant forall c', a' :: 0 <= c' < banks.Length0 && 0 <= a' < banks.Length1 ==>
        banks[c', a'] == if c' == c && a' in addresses[..k] then value else Cell(log, c', a')
    {
      var address := addresses[k];
      if address >= banks.Length1 {
        assert Matches(address, addrCol);
        return Some(IndexError);
      }
      banks[c, address] := value;
      if nameMissing {
        return Some(AttributeError);
      }
      assert addresses[..k + 1] == addresses[..k] + [address];
    }
    assert addresses[..|addresses|] == addresses;
    assert Fits(addrCol, banks.Length1) by {
      forall a: nat | Matches(a, addrCol)
        ensures a < banks.Length1
      {
        assert a in addresses;
      }
    }
    raised := None;
  }

  /** All address columns for chip `c`. */
  method WriteChip(banks: array2<nat>, c: nat, nameMissing: bool, addrCols: seq<seq<string>>,
                   outputMatrix: seq<seq<seq<string>>>, ghost log: seq<Write>)
    returns (raised: Option<Raised>)
    requires c < banks.Length0 && Holds(banks, log)
    modifies banks
    ensures var ws := ChipWrites(banks.Length1, nameMissing, c, addrCols, outputMatrix);
      && raised == ErrorOf(ws)
      && (ws.Ok? ==> Holds(banks, log + ws.value))
  {
    if c >= |outputMatrix| {
      return Some(KeyError);
    }
    var dataDataMap := Transpose(outputMatrix[c]);
    if dataDataMap.Err? {
      return Some(dataDataMap.error);
    }
    var dataCols := dataDataMap.value;
    ghost var done: seq<Write> := [];
    assert log + done == log;
    for index := 0 to |addrCols|
      invariant ColumnWrites(banks.Length1, nameMissing, c, addrCols, dataCols, index) == Ok(done)
      invariant Holds(banks, log + done)
    {
      raised := WriteColumn(banks, c, nameMissing, addrCols[index], dataCols, index, log + done);
      if raised.Some? {
        ColumnWritesKeepError(banks.Length1, nameMissing, c, addrCols, dataCols, index + 1, |addrCols|);
        return;
      }
      ghost var w := ColumnWrite(banks.Length1, nameMissing, c, addrCols[index], dataCols, index).value;
      assert log + done + [w] == log + (done + [w]);
      done := done + [w];
    }
    raised := None;
  }

  /** One stored table: its address columns, then every chip in turn. */
  method WriteTable(banks: array2<nat>, g: Generator, name: Option<string>, p: Parsed, ghost log: seq<Write>)
    returns (raised: Option<Raised>)
    requires banks.Length0 == ChipCount(g) && banks.Length1 == BankSize(g) && Holds(banks, log)
    modifies banks
    ensures var ws := TableWrites(g, name, p);
      && raised == ErrorOf(ws)
      && (ws.Ok? ==> Holds(banks, log + ws.value))
  {
    var addressDataMap := Transpose(p.addressMatrix);
    if addressDataMap.Err? {
      return Some(addressDataMap.error);
    }
    var addrCols := addressDataMap.value;
    var nameMissing := g.ChipGenerator? && name.None?;
    ghost var done: seq<Write> := [];
    assert log + done == log;
    for c := 0 to ChipCount(g)
      invariant ChipsWrites(BankSize(g), nameMissing, addrCols, p.outputMatrix, c) == Ok(done)
      invariant Holds(banks, log + done)
    {
      raised := WriteChip(banks, c, nameMissing, addrCols, p.outputMatrix, log + done);
      if raised.Some? {
        ChipsWritesKeepError(BankSize(g), nameMissing, addrCols, p.outputMatrix, c + 1, ChipCount(g));
        return;
      }
      ghost var ws := ChipWrites(BankSize(g), nameMissing, c, addrCols, p.outputMatrix).value;
      ChipsWritesStep(BankSize(g), nameMissing, addrCols, p.outputMatrix, c, done);
      assert log + done + ws == log + (done + ws);
      done := done + ws;
    }
    raised := None;
  }

  /** `microcodeMatrix`: `chips` banks of `size` zeros. */
  method ZeroBanks(chips: nat, size: nat) returns (banks: array2<nat>)
    ensures fresh(banks) && banks.Length0 == chips && banks.Length1 == size
    ensures Holds(banks, [])
  {
    banks := new nat[chips, size]((c, a) => 0);
  }

  /** `microInsMatrix`: the signal names of a table. */
  datatype MicroIns = MicroIns(inNames: seq<string>, outNames: seq<seq<string>>)

  /** `generateAddressDataMap` over the stored tables: zeroed banks, one
      per chip, filled table by table; the signal names of the last table
      come back with them, or None when there is no table. */
  method Generate(g: Generator, data: Mapping<Option<string>, Parsed>)
    returns (raised: Option<Raised>, banks: array2<nat>, microIns: Option<MicroIns>)
    ensures fresh(banks) && banks.Length0 == ChipCount(g) && banks.Length1 == BankSize(g)
    ensures raised == ErrorOf(AllWrites(g, data, |data|))
    ensures raised.None? ==> Holds(banks, AllWrites(g, data, |data|).value)
    ensures raised.None? ==>
              microIns == if data == [] then None
                          else Some(MicroIns(data[|data| - 1].1.inNames, data[|data| - 1].1.outNames))
  {
    banks := ZeroBanks(ChipCount(g), BankSize(g));
    microIns := None;
    ghost var done: seq<Write> := [];
    for i := 0 to |data|
      invariant AllWrites(g, data, i) == Ok(done)
      invariant Holds(banks, done)
      invariant microIns == if i == 0 then None else Some(MicroIns(data[i - 1].1.inNames, data[i - 1].1.outNames))
    {
      var (name, p) := data[i];
      microIns := Some(MicroIns(p.inNames, p.outNames));
      raised := WriteTable(banks, g, name, p, done);
      if raised.Some? {
        AllWritesKeepError(g, data, i + 1, |data|);
        return;
      }
      done := done + TableWrites(g, name, p).value;
    }
    raised := None;
  }
}

/** The class `ParseInstructions` of the two EEPROM table generators: it
    keeps the instruction tables it is given, parses them into a dictionary
    from instruction name to parsed table, and fills the banks from that
    dictionary. `FirstGenerator` is `GenMicroCode/ParseInstruction.py`;
    `ChipGenerator(chip)` is `Microcode/GenMicrocode/ParseInstruction.py`. */
module MicrocodeGenerator {
  import opened Common
  import opened Dict
  import opened MicrocodeConfig
  import opened InstructionText
  import opened TruthTable
  import opened MicrocodeTables
  import opened MicrocodeBanks

  /** The name a table is stored under, given the name found in its text.
      The chip-aware generator starts every table with no name; the first
      one keeps the name of the previous table when a table has no
      "INSTRUCTION:" line. */
  function TableName(g: Generator, found: Option<string>, previous: Option<string>): Option<string>
  {
    if g.ChipGenerator? || found.Some? then found else previous
  }

  /** The dictionary, the name variable and the exception after some tables. */
  datatype Progress = Progress(data: Mapping<Option<string>, Parsed>, name: Option<string>, raised: Option<Raised>)

  /** One table handled: stored under its name, or the exception that
      stops the loop. The first generator raises NameError for a table
      stored before any name was found; an earlier exception stays. */
  function Handle(g: Generator, before: Progress, found: Option<string>, table: Result<Parsed, Raised>): Progress
  {
    if before.raised.Some? then before
    else
      var name := TableName(g, found, before.name);
      match table
      case Err(e) => Progress(before.data, name, Some(e))
      case Ok(p) =>
        if g == FirstGenerator && name.None? then Progress(before.data, name, Some(NameError))
        else Progress(Put(before.data, name, p), name, None)
  }

  /** The first `n` tables handled in order, given the names found in the
      texts and the parsed tables. */
  function Run(g: Generator, data: Mapping<Option<string>, Parsed>, found: seq<Option<string>>,
               tables: seq<Result<Parsed, Raised>>, n: nat): Progress
    requires n <= |found| && n <= |tables|
  {
    if n == 0 then Progress(data, None, None)
    else Handle(g, Run(g, data, found, tables, n - 1), found[n - 1], tables[n - 1])
  }

  /** The name each text gives. */
  function Found(texts: seq<string>): (found: seq<Option<string>>)
    ensures |found| == |texts|
  {
    seq(|texts|, i requires 0 <= i < |texts| => NameFrom(Lines(texts[i]), 0))
  }

  /** The parsed table of an instruction text. */
  function TableOf(g: Generator, text: string): Result<Parsed, Raised>
  {
    ParseTable(CellRows(Lines(text)), ChipCount(g))
  }

  /** The parsed table of each text, in order. */
  function Tables(g: Generator, texts: seq<string>): (tables: seq<Result<Parsed, Raised>>)
    ensures |tables| == |texts|
  {
    seq(|texts|, i requires 0 <= i < |texts| => TableOf(g, texts[i]))
  }

  /** `parseEachInstruction` over the texts. */
  function ParseAll(g: Generator, data: Mapping<Option<string>, Parsed>, texts: seq<string>): Progress
  {
    Run(g, data, Found(texts), Tables(g, texts), |texts|)
  }

  lemma {:induction false} RunKeepsError(g: Generator, data: Mapping<Option<string>, Parsed>, found: seq<Option<string>>,
                                         tables: seq<Result<Parsed, Raised>>, n: nat, m: nat)
    requires n <= m <= |found| && m <= |tables| && Run(g, data, found, tables, n).raised.Some?
    ensures Run(g, data, found, tables, m) == Run(g, data, found, tables, n)
    decreases m
  {
    if n < m {
      RunKeepsError(g, data, found, tables, n, m - 1);
    }
  }

  /** The name search and the row loop of every text. */
  method ReadTables(g: Generator, texts: seq<string>)
    returns (names: seq<Option<string>>, tables: seq<Result<Parsed, Raised>>)
    ensures names == Found(texts) && tables == Tables(g, texts)
  {
    names, tables := [], [];
    for i := 0 to |texts|
      invariant names == Found(texts)[..i] && tables == Tables(g, texts)[..i]
    {
      var instructionName, table := ReadTable(g, texts, i);
      names, tables := names + [instructionName], tables + [table];
    }
  }

  /** The name search and the row loop of text `i`. */
  method ReadTable(g: Generator, texts: seq<string>, i: nat) returns (name: Option<string>, table: Result<Parsed, Raised>)
    requires i < |texts|
    ensures name == Found(texts)[i] && table == Tables(g, texts)[i]
  {
    var lines := Lines(texts[i]);
    name := FindName(lines);
    table := ParseRows(lines, ChipCount(g));
  }

  /** The loop that stores each parsed table under its name, until the
      first exception. */
  method StoreTables(g: Generator, data: Mapping<Option<string>, Parsed>, names: seq<Option<string>>,
                     tables: seq<Result<Parsed, Raised>>)
    returns (progress: Progress)
    requires |names| == |tables|
    ensures progress == Run(g, data, names, tables, |tables|)
  {
    var instructionParsedData, instructionName := data, None;
    for i := 0 to |tables|
      invariant Run(g, data, names, tables, i) == Progress(instructionParsedData, instructionName, None)
    {
      if g.ChipGenerator? || names[i].Some? {
        instructionName := names[i];
      }
      if tables[i].Err? {
        RunKeepsError(g, data, names, tables, i + 1, |tables|);
        return Progress(instructionParsedData, instructionName, Some(tables[i].error));
      }
      if g == FirstGenerator && instructionName.None? {
        RunKeepsError(g, data, names, tables, i + 1, |tables|);
        return Progress(instructionParsedData, instructionName, Some(NameError));
      }
      instructionParsedData := Put(instructionParsedData, instructionName, tables[i].value);
    }
    progress := Progress(instructionParsedData, instructionName, None);
  }

  class ParseInstructions {
    const generator: Generator
    /** The instruction tables, as text. */
    var insObjects: seq<string>
    /** `InstructionParsedData`. */
    var instructionParsedData: Mapping<Option<string>, Parsed>

    constructor (g: Generator, texts: seq<string>)
      ensures generator == g && insObjects == texts && instructionParsedData == []
    {
      generator := g;
      insObjects := texts;
      instructionParsedData := [];
    }

    /** `parseEachInstruction`: every table is read, then stored in
        order until the first exception. */
    method ParseEachInstruction() returns (raised: Option<Raised>)
      modifies this
      ensures insObjects == old(insObjects)
      ensures var progress := ParseAll(generator, old(instructionParsedData), insObjects);
        instructionParsedData == progress.data && raised == progress.raised
    {
      var names, tables := ReadTables(generator, insObjects);
      var progress := StoreTables(generator, instructionParsedData, names, tables);
      instructionParsedData, raised := progress.data, progress.raised;
    }

    /** `generateAddressDataMap`: the banks filled from the stored tables,
        and the signal names of the last one. */
    method GenerateAddressDataMap() returns (raised: Option<Raised>, banks: array2<nat>, microIns: Option<MicroIns>)
      ensures fresh(banks) && banks.Length0 == ChipCount(generator) && banks.Length1 == BankSize(generator)
      ensures var writes := AllWrites(generator, instructionParsedData, |instructionParsedData|);
        && raised == ErrorOf(writes)
        && (writes.Ok? ==> Holds(banks, writes.value))
      ensures raised.None? && instructionParsedData != [] ==>
                microIns == Some(MicroIns(instructionParsedData[|instructionParsedData| - 1].1.inNames,
                                          instructionParsedData[|instructionParsedData| - 1].1.outNames))
      ensures raised.None? && instructionParsedData == [] ==> microIns == None
    {
      raised, banks, microIns := Generate(generator, instructionParsedData);
    }
  }

  // ---------------------------------------------------------------------
  // What the dictionary holds
  // ---------------------------------------------------------------------

  /** A dictionary built by the loop never repeats a name. */
  lemma {:induction false} RunUnique(g: Generator, data: Mapping<Option<string>, Parsed>, found: seq<Option<string>>,
                                     tables: seq<Result<Parsed, Raised>>, n: nat)
    requires n <= |found| && n <= |tables| && UniqueKeys(data)
    ensures UniqueKeys(Run(g, data, found, tables, n).data)
  {
    if n > 0 {
      RunUnique(g, data, found, tables, n - 1);
      var before := Run(g, data, found, tables, n - 1);
      var progress := Handle(g, before, found[n - 1], tables[n - 1]);
      HandleData(g, before, found[n - 1], tables[n - 1]);
      if progress.raised.None? {
        var p := tables[n - 1].value;
        PutKeys(before.data, progress.name, p);
        UniqueFromKeys(before.data, Put(before.data, progress.name, p), progress.name);
      }
    }
  }

  /** A handled table is stored under the name it is handled with, unless
      an exception is raised, which leaves the dictionary as it was. */
  lemma HandleData(g: Generator, before: Progress, found: Option<string>, table: Result<Parsed, Raised>)
    ensures var progress := Handle(g, before, found, table);
      if progress.raised.None? then table.Ok? && progress.data == Put(before.data, progress.name, table.value)
      else progress.data == before.data
  {
  }

  /** Keys that are a list without repeats, or such a list with one new
      key added, repeat no key. */
  lemma UniqueFromKeys<K, V>(m: Mapping<K, V>, m': Mapping<K, V>, k: K)
    requires UniqueKeys(m)
    requires Keys(m') == if k in Keys(m) then Keys(m) else Keys(m) + [k]
    ensures UniqueKeys(m')
  {
    forall i, j | 0 <= i < j < |m'|
      ensures m'[i].0 != m'[j].0
    {
      assert Keys(m')[i] == m'[i].0 && Keys(m')[j] == m'[j].0;
      if j < |m| {
        assert Keys(m)[i] == m[i].0 && Keys(m)[j] == m[j].0;
      } else {
        assert Keys(m)[i] == m[i].0;
      }
    }
  }

  /** After a run without exception, the last table is stored under the
      name it was handled with. */
  lemma LastTableStored(g: Generator, data: Mapping<Option<string>, Parsed>, found: seq<Option<string>>,
                        tables: seq<Result<Parsed, Raised>>)
    requires 0 < |found| == |tables| && Run(g, data, found, tables, |tables|).raised.None?
    ensures var progress := Run(g, data, found, tables, |tables|);
      && tables[|tables| - 1].Ok?
      && Lookup(progress.data, progress.name) == Some(tables[|tables| - 1].value)
  {
    var n := |tables|;
    var before := Run(g, data, found, tables, n - 1);
    var progress := Run(g, data, found, tables, n);
    PutLookup(before.data, progress.name, tables[n - 1].value, progress.name);
  }

  /** Every stored table is one that was already there or a handled
      table, so when neither gives a chip more than eight rows, no stored
      table does. */
  lemma {:induction false} RunSmall(g: Generator, data: Mapping<Option<string>, Parsed>, found: seq<Option<string>>,
                                    tables: seq<Result<Parsed, Raised>>, n: nat)
    requires n <= |found| && n <= |tables|
    requires forall i :: 0 <= i < |data| ==> SmallChips(data[i].1)
    requires forall i :: 0 <= i < |tables| && tables[i].Ok? ==> SmallChips(tables[i].value)
    ensures forall i :: 0 <= i < |Run(g, data, found, tables, n).data| ==> SmallChips(Run(g, data, found, tables, n).data[i].1)
  {
    if n > 0 {
      RunSmall(g, data, found, tables, n - 1);
      var before := Run(g, data, found, tables, n - 1);
      var progress := Handle(g, before, found[n - 1], tables[n - 1]);
      assert progress == Run(g, data, found, tables, n);
      if before.raised.None? && tables[n - 1].Ok? && progress.raised.None? {
        var p := tables[n - 1].value;
        assert progress.data == Put(before.data, progress.name, p);
        PutEntries(before.data, progress.name, p);
        forall i | 0 <= i < |progress.data|
          ensures SmallChips(progress.data[i].1)
        {
          var e := progress.data[i];
          assert e in Put(before.data, progress.name, p);
          if e != (progress.name, p) {
            assert e in before.data;
            var j :| 0 <= j < |before.data| && before.data[j] == e;
            assert SmallChips(before.data[j].1);
          } else {
            assert SmallChips(tables[n - 1].value);
          }
        }
      } else {
        assert progress.data == before.data;
        forall i | 0 <= i < |progress.data|
          ensures SmallChips(progress.data[i].1)
        {
          assert SmallChips(before.data[i].1);
        }
      }
    }
  }

  /** No parsed instruction text gives a chip more than eight rows. */
  lemma TablesSmall(g: Generator, texts: seq<string>)
    ensures forall i :: 0 <= i < |texts| && Tables(g, texts)[i].Ok? ==> SmallChips(Tables(g, texts)[i].value)
  {
    forall i | 0 <= i < |texts| && Tables(g, texts)[i].Ok?
      ensures SmallChips(Tables(g, texts)[i].value)
    {
      ParsedChipsSmall(CellRows(Lines(texts[i])), ChipCount(g));
    }
  }

  /** From an empty dictionary, handling tables with at most eight rows per
      chip and filling without exception leaves a byte in every cell. */
  lemma RunBytes(g: Generator, found: seq<Option<string>>, tables: seq<Result<Parsed, Raised>>, c: nat, a: nat)
    requires |found| == |tables| && Run(g, [], found, tables, |tables|).raised.None?
    requires forall i :: 0 <= i < |tables| && tables[i].Ok? ==> SmallChips(tables[i].value)
    requires var stored := Run(g, [], found, tables, |tables|).data; AllWrites(g, stored, |stored|).Ok?
    ensures var stored := Run(g, [], found, tables, |tables|).data;
      Cell(AllWrites(g, stored, |stored|).value, c, a) < 256
  {
    RunSmall(g, [], found, tables, |tables|);
    var stored := Run(g, [], found, tables, |tables|).data;
    BanksAreBytes(g, stored, c, a);
  }

  /** From an empty dictionary, parsing and filling without exception
      leaves a byte in every cell of every bank. */
  lemma GeneratedBytes(g: Generator, texts: seq<string>, c: nat, a: nat)
    requires ParseAll(g, [], texts).raised.None?
    requires var stored := ParseAll(g, [], texts).data; AllWrites(g, stored, |stored|).Ok?
    ensures var stored := ParseAll(g, [], texts).data;
      Cell(AllWrites(g, stored, |stored|).value, c, a) < 256
  {
    TablesSmall(g, texts);
    RunBytes(g, Found(texts), Tables(g, texts), c, a);
  }

  /** The first generator keeps a stale name: a second table without an
      "INSTRUCTION:" line is stored under the first table's name and
      replaces it. */
  lemma StaleNameOverwrites(found: seq<Option<string>>, tables: seq<Result<Parsed, Raised>>, name: string)
    requires |found| == |tables| == 2 && found[0] == Some(name) && found[1] == None
    requires tables[0].Ok? && tables[1].Ok?
    ensures Run(FirstGenerator, [], found, tables, 2) == Progress([(Some(name), tables[1].value)], Some(name), None)
  {
    assert Run(FirstGenerator, [], found, tables, 1) == Progress([(Some(name), tables[0].value)], Some(name), None);
  }

  /** A first table without a name: the first generator raises NameError
      once its rows are parsed; the chip-aware one stores it under None. */
  lemma NamelessFirstTable(g: Generator, found: seq<Option<string>>, tables: seq<Result<Parsed, Raised>>)
    requires 0 < |found| == |tables| && found[0] == None && tables[0].Ok?
    ensures g == FirstGenerator ==> Run(g, [], found, tables, |tables|).raised == Some(NameError)
    ensures g.ChipGenerator? ==> Run(g, [], found, tables, 1).data == [(None, tables[0].value)]
  {
    if g == FirstGenerator {
      RunKeepsError(g, [], found, tables, 1, |tables|);
    }
  }
}

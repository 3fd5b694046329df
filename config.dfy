/** The lookups the microcode tools make in their YAML configuration: the
    pin index of a control signal, a whole section of pin indices, the
    virtual pins and the instruction list. Loading the YAML file is left
    out: the loaded document is given as a value. */
module MicrocodeConfig {
  import opened Common
  import opened Dict

  /** The exceptions the microcode tools raise. */
  datatype Raised = IndexError | KeyError | NameError | AttributeError | SignalMissing(name: string)

  /** "InsConfig": its "Instructions" list, if present. */
  datatype InsConfig = InsConfig(instructions: Option<seq<string>>)

  /** The parts of the loaded document the tools read; a missing key is
      `None`. "PinConfig" maps a section to signal names and their pin
      indices; "VirtualPins" maps a section to pins and their states. */
  datatype Config = Config(
    pinConfig: Option<Mapping<string, Mapping<string, int>>>,
    virtualPins: Option<Mapping<string, Mapping<string, seq<string>>>>,
    insConfig: Option<InsConfig>)

  /** Every mapping of a loaded YAML document is a dictionary: no key
      repeats. */
  predicate Valid(config: Config)
  {
    && (config.pinConfig.Some? ==>
          && UniqueKeys(config.pinConfig.value)
          && forall i :: 0 <= i < |config.pinConfig.value| ==> UniqueKeys(config.pinConfig.value[i].1))
    && (config.virtualPins.Some? ==>
          && UniqueKeys(config.virtualPins.value)
          && forall i :: 0 <= i < |config.virtualPins.value| ==> UniqueKeys(config.virtualPins.value[i].1))
  }

  const INPUT_CONTROL := "InputControl"
  const OUTPUT_CONTROL := "OutputControl"
  const EXTRA := "Extra"

  /** The sections `getSignalIndex` searches, in its order. */
  const Sections := [INPUT_CONTROL, OUTPUT_CONTROL, EXTRA]

  /** `config.get("PinConfig", {}).get(name, {})`. */
  function Section(config: Config, name: string): Mapping<string, int>
  {
    match config.pinConfig
    case None => []
    case Some(pins) =>
      match Lookup(pins, name)
      case None => []
      case Some(controls) => controls
  }

  /** The answer of `getSignalIndex` after searching the first `n`
      sections: the index and name of the last of them that has the
      signal, or (-1, None). */
  function LastSection(signalName: string, config: Config, n: nat): (int, Option<string>)
    requires n <= |Sections|
  {
    if n == 0 then (-1, None)
    else
      match Lookup(Section(config, Sections[n - 1]), signalName)
      case Some(index) => (index, Some(Sections[n - 1]))
      case None => LastSection(signalName, config, n - 1)
  }

  /** `getSignalIndex`: every section is searched, and `break` leaves only
      the inner loop, so a later section overrides an earlier one. */
  method GetSignalIndex(signalName: string, config: Config) returns (returnVal: int, sectionType: Option<string>)
    ensures (returnVal, sectionType) == LastSection(signalName, config, |Sections|)
  {
    returnVal, sectionType := -1, None;
    for s := 0 to |Sections|
      invariant (returnVal, sectionType) == LastSection(signalName, config, s)
    {
      var controls := Section(config, Sections[s]);
      var j := 0;
      while j < |controls|
        invariant 0 <= j <= |controls|
        invariant forall t :: 0 <= t < j ==> controls[t].0 != signalName
        invariant (returnVal, sectionType) == LastSection(signalName, config, s)
      {
        if controls[j].0 == signalName {
          LookupAt(controls, signalName, j);
          returnVal, sectionType := controls[j].1, Some(Sections[s]);
          break;
        }
        j := j + 1;
      }
      if j == |controls| {
        LookupAt(controls, signalName, j);
      }
    }
  }

  /** What `getSignalIndex` answers: (-1, None) when no section has the
      signal; otherwise the section is the last of InputControl,
      OutputControl, Extra that has it, and the index is its entry there. */
  lemma SignalIndexMeaning(signalName: string, config: Config)
    ensures var (index, section) := LastSection(signalName, config, |Sections|);
      && (section == None <==> forall s :: 0 <= s < |Sections| ==> Lookup(Section(config, Sections[s]), signalName) == None)
      && (section == None ==> index == -1)
      && (section != None ==>
            exists s :: 0 <= s < |Sections| && section == Some(Sections[s])
              && Lookup(Section(config, Sections[s]), signalName) == Some(index)
              && forall t :: s < t < |Sections| ==> Lookup(Section(config, Sections[t]), signalName) == None)
  {
    var e := Lookup(Section(config, EXTRA), signalName);
    var o := Lookup(Section(config, OUTPUT_CONTROL), signalName);
    var i := Lookup(Section(config, INPUT_CONTROL), signalName);
    assert Sections[0] == INPUT_CONTROL && Sections[1] == OUTPUT_CONTROL && Sections[2] == EXTRA;
    if e.Some? {
      assert LastSection(signalName, config, 3) == (e.value, Some(EXTRA));
    } else {
      assert LastSection(signalName, config, 3) == LastSection(signalName, config, 2);
      if o.Some? {
        assert LastSection(signalName, config, 2) == (o.value, Some(OUTPUT_CONTROL));
      } else {
        assert LastSection(signalName, config, 2) == LastSection(signalName, config, 1);
        assert LastSection(signalName, config, 1) == if i.Some? then (i.value, Some(INPUT_CONTROL)) else (-1, None);
      }
    }
  }

  /** A signal listed both as an input control and as an extra signal is
      reported as extra. */
  lemma ExtraOverridesInput(signalName: string, config: Config, a: int, b: int)
    requires Lookup(Section(config, INPUT_CONTROL), signalName) == Some(a)
    requires Lookup(Section(config, EXTRA), signalName) == Some(b)
    ensures LastSection(signalName, config, |Sections|) == (b, Some(EXTRA))
  {
    assert Sections[2] == EXTRA;
  }

  /** `getAllSignalIndex`: a copy of one section, empty when "PinConfig"
      or the section is missing. */
  method GetAllSignalIndex(sectionName: string, config: Config) returns (signalIndexDict: Mapping<string, int>)
    requires Valid(config)
    ensures signalIndexDict == Section(config, sectionName)
    ensures config.pinConfig == None ==> signalIndexDict == []
    ensures config.pinConfig.Some? && Lookup(config.pinConfig.value, sectionName) == None ==> signalIndexDict == []
  {
    var controls := Section(config, sectionName);
    assert UniqueKeys(controls) by {
      if config.pinConfig.Some? {
        var pins := config.pinConfig.value;
        if Lookup(pins, sectionName).Some? {
          LookupIsEntry(pins, sectionName);
        }
      }
    }
    signalIndexDict := [];
    for i := 0 to |controls|
      invariant signalIndexDict == controls[..i]
    {
      var (signal, index) := controls[i];
      CopyStep(controls, i);
      signalIndexDict := Put(signalIndexDict, signal, index);
    }
    assert controls[..|controls|] == controls;
  }

  /** A value found by lookup is one of the mapping's entries. */
  lemma {:induction false} LookupIsEntry<K, V>(m: Mapping<K, V>, k: K)
    requires Lookup(m, k).Some?
    ensures exists j :: 0 <= j < |m| && m[j] == (k, Lookup(m, k).value)
  {
    if m[0].0 != k {
      LookupIsEntry(m[1..], k);
      var j :| 0 <= j < |m[1..]| && m[1..][j] == (k, Lookup(m, k).value);
      assert m[j + 1] == (k, Lookup(m, k).value);
    } else {
      assert m[0] == (k, Lookup(m, k).value);
    }
  }

  /** Each virtual-pin section with the names of its pins, in order. */
  function PinNames(sections: Mapping<string, Mapping<string, seq<string>>>): (r: Mapping<string, seq<string>>)
    ensures |r| == |sections|
  {
    seq(|sections|, i requires 0 <= i < |sections| => (sections[i].0, Keys(sections[i].1)))
  }

  /** `getAllVirtualPins`: for each section, a list of its pin names,
      appended one by one. */
  method GetAllVirtualPins(config: Config) returns (virtualPinConfig: Mapping<string, seq<string>>)
    requires Valid(config)
    ensures config.virtualPins == None ==> virtualPinConfig == []
    ensures config.virtualPins.Some? ==> virtualPinConfig == PinNames(config.virtualPins.value)
  {
    var virtualPins := if config.virtualPins.Some? then config.virtualPins.value else [];
    virtualPinConfig := [];
    for i := 0 to |virtualPins|
      invariant virtualPinConfig == PinNames(virtualPins[..i])
    {
      var (section, pins) := virtualPins[i];
      var done := virtualPinConfig;
      assert forall t :: 0 <= t < |done| ==> done[t].0 != section by {
        forall t | 0 <= t < |done|
          ensures done[t].0 != section
        {
          assert done[t].0 == virtualPins[t].0;
        }
      }
      PutNew(done, section, []);
      virtualPinConfig := Put(virtualPinConfig, section, []);
      assert Keys(pins[..0]) == [];
      for j := 0 to |pins|
        invariant virtualPinConfig == done + [(section, Keys(pins[..j]))]
      {
        var (pin, states) := pins[j];
        PutLast(done, section, Keys(pins[..j]), Keys(pins[..j]) + [pin]);
        assert Lookup(virtualPinConfig, section) == Some(Keys(pins[..j])) by {
          LookupAt(virtualPinConfig, section, |done|);
        }
        virtualPinConfig := Put(virtualPinConfig, section, Lookup(virtualPinConfig, section).value + [pin]);
        assert Keys(pins[..j]) + [pin] == Keys(pins[..j + 1]);
      }
      assert pins[..|pins|] == pins;
      assert PinNames(virtualPins[..i + 1]) == done + [(section, Keys(pins))];
    }
    assert virtualPins[..|virtualPins|] == virtualPins;
  }

  /** `getAllInstructions`: "InsConfig"/"Instructions", or [] when either
      is missing. */
  function GetAllInstructions(config: Config): (instructions: seq<string>)
    ensures config.insConfig == None ==> instructions == []
    ensures config.insConfig.Some? && config.insConfig.value.instructions == None ==> instructions == []
    ensures config.insConfig.Some? && config.insConfig.value.instructions.Some? ==>
              instructions == config.insConfig.value.instructions.value
  {
    match config.insConfig
    case None => []
    case Some(ins) =>
      match ins.instructions
      case None => []
      case Some(list) => list
  }
}

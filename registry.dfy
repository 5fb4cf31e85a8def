/**
 * The fixed tables the decoder builds at start-up: 14 commands and 33 typed
 * parameters, in declaration order, and the index from a parameter's wire code to
 * its name. Descriptions and the advisory minimum hardware versions are not kept.
 */
module Registry {
  import opened Wrappers
  import opened Command

  /** A named command: its wire code and, for commands taking arguments, the default arguments. */
  datatype CommandSpec = CommandSpec(name: string, code: string, defaultArguments: Option<string>)

  /** A named parameter: wire code, type, range, factor and default value. */
  datatype ParameterSpec = ParameterSpec(
    name: string, code: string, kind: ParameterType, minVal: int, maxVal: int, factor: int, defaultValue: int)

  const Commands: seq<CommandSpec> := [
    CommandSpec("volumeUp", "BVU", None),
    CommandSpec("volumeDown", "BVD", None),
    CommandSpec("getSettings", "BST", None),
    CommandSpec("getTemp", "TMP", None),
    CommandSpec("reset", "RST", None),
    CommandSpec("restoreDefaults", "RSX", None),
    CommandSpec("sleep", "SLP", None),
    CommandSpec("sleepNoWake", "SLX", None),
    CommandSpec("simulateButton", "BTN", None),
    CommandSpec("playSound", "BSD", Some("800 500 400 500")),
    CommandSpec("eraseLocus", "PMTK184,1", None),
    CommandSpec("queryLocus", "PMTK183", None),
    CommandSpec("queryLocusData", "PMTK622,0", None),
    CommandSpec("setBluetoothName", "RNC SN,", Some("BlueFly-"))
  ]

  const Parameters: seq<ParameterSpec> := [
    ParameterSpec("useAudioWhenConnected", "BAC", Boolean, 0, 1, 1, 0),
    ParameterSpec("useAudioWhenDisconnected", "BAD", Boolean, 0, 1, 1, 1),
    ParameterSpec("positionNoise", "BFK", Double, 10, 10000, 1000, 100),
    ParameterSpec("liftThreshold", "BFL", Double, 0, 1000, 100, 20),
    ParameterSpec("liftOffThreshold", "BOL", Double, 0, 1000, 100, 5),
    ParameterSpec("liftFreqBase", "BFQ", Int, 500, 2000, 1, 1000),
    ParameterSpec("liftFreqIncrement", "BFI", Int, 0, 1000, 1, 100),
    ParameterSpec("sinkThreshold", "BFS", Double, 0, 1000, 100, 20),
    ParameterSpec("sinkOffThreshold", "BOS", Double, 0, 1000, 100, 5),
    ParameterSpec("sinkFreqBase", "BSQ", Int, 250, 1000, 1, 400),
    ParameterSpec("sinkFreqIncrement", "BSI", Int, 0, 1000, 1, 100),
    ParameterSpec("secondsBluetoothWait", "BTH", Int, 0, 10000, 1, 180),
    ParameterSpec("rateMultiplier", "BRM", Double, 10, 1000, 100, 100),
    ParameterSpec("speedMultiplier", "BSM", Double, 10, 1000, 100, 100),
    ParameterSpec("volume", "BVL", Double, 1, 1000, 1000, 1000),
    ParameterSpec("outputMode", "BOM", Int, 0, 7, 1, 0),
    ParameterSpec("outputFrequency", "BOF", Int, 1, 50, 1, 1),
    ParameterSpec("outputQNH", "BQH", IntOffset, 0, 65535, 80000, 21325),
    ParameterSpec("uart1BRG", "BRB", Int, 0, 65535, 1, 207),
    ParameterSpec("uart2BRG", "BR2", Int, 0, 65535, 1, 16),
    ParameterSpec("heightSensitivityDm", "BHV", Int, 0, 65535, 1, 20),
    ParameterSpec("heightSeconds", "BHT", Int, 0, 65535, 1, 600),
    ParameterSpec("uartPassthrough", "BPT", Boolean, 0, 1, 1, 1),
    ParameterSpec("uart1Raw", "BUR", Boolean, 0, 1, 1, 0),
    ParameterSpec("greenLED", "BLD", Boolean, 0, 1, 1, 1),
    ParameterSpec("useAudioBuzzer", "BBZ", Boolean, 0, 1, 1, 0),
    ParameterSpec("buzzerThreshold", "BZT", Double, 0, 1000, 100, 40),
    ParameterSpec("usePitot", "BUP", Boolean, 0, 1, 1, 0),
    ParameterSpec("toggleThreshold", "BTT", Double, 0, 1000, 100, 100),
    ParameterSpec("startDelayMS", "BDM", Int, 0, 65535, 1, 0),
    ParameterSpec("quietStart", "BQS", Boolean, 0, 1, 1, 0),
    ParameterSpec("gpsLogInterval", "BGL", Int, 0, 65535, 1, 10),
    ParameterSpec("isPrintPressure", "BFP", Boolean, 0, 1, 1, 1)
  ]

  /** The builder's assertions on a parameter: 0 <= min <= default <= max <= 65535. */
  predicate WellFormed(p: ParameterSpec) {
    0 <= p.minVal <= p.defaultValue <= p.maxVal <= 65535
  }

  predicate DistinctCodes(ps: seq<ParameterSpec>) {
    forall i, j :: 0 <= i < j < |ps| ==> ps[i].code != ps[j].code
  }

  predicate DistinctNames(ps: seq<ParameterSpec>) {
    forall i, j :: 0 <= i < j < |ps| ==> ps[i].name != ps[j].name
  }

  /** The names of all parameters. */
  function ParameterNames(): set<string> {
    NamesOf(Parameters)
  }

  /** Every parameter's default lies within its range, and the range within [0, 65535]. */
  lemma DefaultsInRange()
    ensures forall i :: 0 <= i < |Parameters| ==> WellFormed(Parameters[i])
  {
  }

  /** No two parameters share a wire code or a name. */
  lemma ParametersDistinct()
    ensures DistinctCodes(Parameters) && DistinctNames(Parameters)
  {
    CodesBlock0();
    CodesBlock1();
    CodesBlock2();
    CodesBlock3();
    NamesBlock0();
    NamesBlock1();
    NamesBlock2();
    NamesBlock3();
  }

  lemma CodesBlock0()
    ensures forall i, j :: 0 <= i < j < 17 ==> Parameters[i].code != Parameters[j].code
  {
  }

  lemma CodesBlock1()
    ensures forall i, j :: 17 <= i < j < 33 ==> Parameters[i].code != Parameters[j].code
  {
  }

  lemma CodesBlock2()
    ensures forall i, j :: 0 <= i < 8 && 17 <= j < 33 ==> Parameters[i].code != Parameters[j].code
  {
  }

  lemma CodesBlock3()
    ensures forall i, j :: 8 <= i < 17 && 17 <= j < 33 ==> Parameters[i].code != Parameters[j].code
  {
  }

  lemma NamesBlock0()
    ensures forall i, j :: 0 <= i < j < 17 ==> Parameters[i].name != Parameters[j].name
  {
  }

  lemma NamesBlock1()
    ensures forall i, j :: 17 <= i < j < 33 ==> Parameters[i].name != Parameters[j].name
  {
  }

  lemma NamesBlock2()
    ensures forall i, j :: 0 <= i < 8 && 17 <= j < 33 ==> Parameters[i].name != Parameters[j].name
  {
  }

  lemma NamesBlock3()
    ensures forall i, j :: 8 <= i < 17 && 17 <= j < 33 ==> Parameters[i].name != Parameters[j].name
  {
  }

  /** No name is both a command and a parameter. */
  lemma CommandsAndParametersDisjoint()
    ensures forall i, j :: 0 <= i < |Commands| && 0 <= j < |Parameters| ==> Commands[i].name != Parameters[j].name
  {
    CommandNamesBlock0();
    CommandNamesBlock1();
  }

  lemma CommandNamesBlock0()
    ensures forall i, j :: 0 <= i < 7 && 0 <= j < |Parameters| ==> Commands[i].name != Parameters[j].name
  {
  }

  lemma CommandNamesBlock1()
    ensures forall i, j :: 7 <= i < 14 && 0 <= j < |Parameters| ==> Commands[i].name != Parameters[j].name
  {
  }

  // ---------------------------------------------------------------------------
  // Code to name index

  /** The codes of a parameter list. */
  function CodesOf(ps: seq<ParameterSpec>): set<string> {
    set i | 0 <= i < |ps| :: ps[i].code
  }

  /** The names of a parameter list. */
  function NamesOf(ps: seq<ParameterSpec>): set<string> {
    set i | 0 <= i < |ps| :: ps[i].name
  }

  /** The code to name index of a parameter list, each entry put in list order. */
  function CodeIndex(ps: seq<ParameterSpec>): (m: map<string, string>)
    ensures m.Keys == CodesOf(ps)
    ensures m.Values <= NamesOf(ps)
  {
    if ps == [] then map[]
    else
      var init, last := ps[..|ps| - 1], ps[|ps| - 1];
      assert CodesOf(ps) == CodesOf(init) + {last.code} by {
        assert forall i :: 0 <= i < |init| ==> init[i] == ps[i];
      }
      assert NamesOf(ps) == NamesOf(init) + {last.name} by {
        assert forall i :: 0 <= i < |init| ==> init[i] == ps[i];
      }
      CodeIndex(init)[last.code := last.name]
  }

  /** With distinct codes, the index maps every parameter's code to that parameter's name. */
  lemma {:induction false} CodeIndexFinds(ps: seq<ParameterSpec>)
    requires DistinctCodes(ps)
    ensures forall i :: 0 <= i < |ps| ==> CodeIndex(ps)[ps[i].code] == ps[i].name
  {
    if ps != [] {
      var init, last := ps[..|ps| - 1], ps[|ps| - 1];
      assert DistinctCodes(init) by {
        assert forall i :: 0 <= i < |init| ==> init[i] == ps[i];
      }
      CodeIndexFinds(init);
      forall i | 0 <= i < |ps|
        ensures CodeIndex(ps)[ps[i].code] == ps[i].name
      {
        if i < |init| {
          assert ps[i] == init[i] && ps[i].code != last.code;
        }
      }
    }
  }

  /** With distinct codes and distinct names, the index is one-to-one and reaches every name. */
  lemma CodeIndexInjective(ps: seq<ParameterSpec>)
    requires DistinctCodes(ps) && DistinctNames(ps)
    ensures forall a, b :: a in CodeIndex(ps) && b in CodeIndex(ps) && CodeIndex(ps)[a] == CodeIndex(ps)[b] ==> a == b
    ensures CodeIndex(ps).Values == NamesOf(ps)
  {
    var m := CodeIndex(ps);
    CodeIndexFinds(ps);
    forall a, b | a in m && b in m && m[a] == m[b]
      ensures a == b
    {
      var i :| 0 <= i < |ps| && ps[i].code == a;
      var j :| 0 <= j < |ps| && ps[j].code == b;
      assert ps[i].name == ps[j].name;
    }
    forall n | n in NamesOf(ps)
      ensures n in m.Values
    {
      var i :| 0 <= i < |ps| && ps[i].name == n;
      assert m[ps[i].code] == n;
    }
  }

  /** `parameterCodeToName`: the index over the parameter table. */
  function CodeToName(): map<string, string> {
    CodeIndex(Parameters)
  }

  /**
   * The index over the parameter table knows exactly the 33 codes, maps each to its
   * parameter's name, and no two codes to the same name.
   */
  lemma CodeToNameFacts()
    ensures CodeToName().Keys == CodesOf(Parameters)
    ensures CodeToName().Values == ParameterNames()
    ensures forall i :: 0 <= i < |Parameters| ==> CodeToName()[Parameters[i].code] == Parameters[i].name
    ensures forall a, b :: a in CodeToName() && b in CodeToName() && CodeToName()[a] == CodeToName()[b] ==> a == b
  {
    ParametersDistinct();
    CodeIndexFinds(Parameters);
    CodeIndexInjective(Parameters);
  }
}

/**
 * The decoder of the older library (`BFVlib.BFV`). It reads the same device lines as the
 * current one, but keeps the last SET values as an array that starts out absent, ignores
 * a SET line repeating them, raises its "parameters changed" flag even when codes and
 * values do not match in number, and shows "n/a" before a BFV line.
 */
module LegacyTelemetry {
  import opened Wrappers
  import opened JavaText
  import opened Command
  import opened DeviceLines
  import Locus
  import Registry

  /**
   * Everything the older decoder remembers between lines. `stored` is
   * `parameterValuesFromDevice`, None while that array is still null.
   */
  datatype State = State(
    qnh: Float,
    readings: Readings,
    hasParameterKeys: bool,
    parameterKeys: seq<string>,
    hasValues: bool,
    stored: Option<seq<Int32>>,
    changedParameters: bool,
    values: map<string, UserValue>,
    locus: Locus.Log)

  /** Every name the code index can yield is a parameter the state holds a value for. */
  predicate Indexed(s: State, index: map<string, string>) {
    NamesKnown(index, s.values)
  }

  /** The hardware version shown before any BFV line and after a reset. */
  const NoVersion: string := "n/a"

  /** A new decoder: version "n/a", no readings, no flags, no codes, no values array, no parameter value set. */
  function Start(): (s: State)
    ensures !s.readings.altitudeFlag && !s.readings.batteryFlag && !s.readings.temperatureFlag
    ensures !s.readings.hardwareVersionFlag && !s.changedParameters
    ensures !s.hasParameterKeys && !s.hasValues && s.stored.None?
    ensures s.readings.altitude.NaN? && s.readings.temperature.NaN? && s.readings.battery.NaN?
    ensures s.readings.hardwareVersion == NoVersion && s.qnh == StandardQnh
    ensures s.values.Keys == Registry.ParameterNames()
    ensures forall name :: name in s.values ==> !s.values[name].hasUserValue
  {
    State(StandardQnh, Readings(NaN, NaN, NaN, NoVersion, false, false, false, false),
          false, [], false, None, false,
          AllSetTo(Registry.ParameterNames(), Initial),
          Locus.Log(Locus.Missing, [], []))
  }

  // ---------------------------------------------------------------------------
  // One device line

  /** A PRS, BFV, TMP or BAT line, applied to the readings. */
  function MeasureState(s: State, tokens: seq<string>, altitudeOf: AltitudeFormula): (State, Outcome)
    requires |tokens| > 1 && IsMeasurement(tokens[0])
  {
    var (r, outcome) := Measure(s.readings, tokens, s.qnh, altitudeOf);
    (s.(readings := r), outcome)
  }

  /**
   * `updateAllUserValues`: with codes and a values array at hand and equally many of
   * each, value `i` goes to the parameter of code `i`. An unknown code throws, keeping
   * the values set before it.
   */
  function UpdateAllUser(s: State, index: map<string, string>): (r: (State, Outcome))
    requires Indexed(s, index)
    ensures r.0 == s.(values := r.0.values)
    ensures r.0.values.Keys == s.values.Keys
    ensures r.1.Threw? ==> r.1.fault == UnknownCode
  {
    match s.stored
    case Some(vals) =>
      if s.hasParameterKeys && s.hasValues && |s.parameterKeys| == |vals| then
        var (m, ok) := Sweep(s.values, index, s.parameterKeys, vals);
        (s.(values := m), if ok then Completed else Threw(UnknownCode))
      else (s, Completed)
    case None => (s, Completed)
  }

  /**
   * `updateParameterValuesFromDevice`: values equal to the stored array are ignored;
   * others are stored and handed to the parameters, after which the "parameters
   * changed" flag is raised, unless handing them over threw.
   */
  function StoreValues(s: State, vals: seq<Int32>, index: map<string, string>): (r: (State, Outcome))
    requires Indexed(s, index)
    ensures r.0.values.Keys == s.values.Keys
    ensures s.stored == Some(vals) ==> r == (s, Completed)
    ensures s.stored != Some(vals) ==> r.0.stored == Some(vals) && r.0.hasValues
    ensures r.0.changedParameters != s.changedParameters ==> r.1 == Completed && r.0.changedParameters
  {
    if s.stored == Some(vals) then (s, Completed)
    else
      var (t, outcome) := UpdateAllUser(s.(stored := Some(vals), hasValues := true), index);
      if outcome.Completed? then (t.(changedParameters := true), Completed) else (t, outcome)
  }

  /**
   * The `switch` of `parseRawDataFromDevice`: a line of at least two space-separated
   * tokens is dispatched on its first. SET is ignored until a BST line has been seen; its
   * values start at the third token, and one that is no decimal `int` throws before
   * anything changes. Other codes are ignored.
   */
  function Dispatch(s: State, tokens: seq<string>, index: map<string, string>, altitudeOf: AltitudeFormula): (r: (State, Outcome))
    requires Indexed(s, index)
    ensures r.0.values.Keys == s.values.Keys
    ensures r.0.qnh == s.qnh && r.0.locus == s.locus
  {
    if |tokens| <= 1 then (s, Completed)
    else if IsMeasurement(tokens[0]) then MeasureState(s, tokens, altitudeOf)
    else if tokens[0] == "BST" then (s.(parameterKeys := tokens[1..], hasParameterKeys := true), Completed)
    else if tokens[0] == "SET" && s.hasParameterKeys then
      match ParseValues(tokens[2..])
      case None => (s, Threw(NumberFormat))
      case Some(vals) => StoreValues(s, vals, index)
    else (s, Completed)
  }

  /**
   * `parseRawDataFromDevice`: a `$PMTK` line goes to the PMTK parser first, whose
   * exception ends the line; then the line's space-separated tokens are dispatched.
   * The text matches the current decoder's `Step`, but the two act on their own `State`
   * types, since the two classes keep different fields.
   */
  function Step(s: State, line: string, index: map<string, string>, altitudeOf: AltitudeFormula): (r: (State, Outcome))
    requires Indexed(s, index)
    ensures r.0.values.Keys == s.values.Keys
    ensures r.0.qnh == s.qnh
  {
    var (log, failure) := PmtkStep(s.locus, line);
    if failure.Some? then (s.(locus := log), Threw(LocusFault(failure.value)))
    else Dispatch(s.(locus := log), Tokens(line), index, altitudeOf)
  }

  /**
   * `resetAllValuesFromDevice`: codes and values become empty arrays, the readings are
   * cleared, the version is "n/a" again and every parameter's user value is reset; the
   * "changed" flags are left as they were.
   */
  function Reset(s: State): (r: State)
    ensures r.values.Keys == s.values.Keys
  {
    s.(parameterKeys := [], stored := Some([]), hasValues := false, hasParameterKeys := false,
       readings := s.readings.(altitude := NaN, battery := NaN, temperature := NaN, hardwareVersion := NoVersion),
       values := AllSetTo(s.values.Keys, Unset))
  }

  // ---------------------------------------------------------------------------
  // Properties of a line

  /** A line of fewer than two tokens that is not PMTK changes nothing. */
  lemma ShortLineIgnored(s: State, line: string, index: map<string, string>, altitudeOf: AltitudeFormula)
    requires Indexed(s, index) && !StartsWith(line, "$PMTK") && |Tokens(line)| <= 1
    ensures Step(s, line, index, altitudeOf) == (s, Completed)
  {
  }

  /** A line whose code is none the decoder acts on (say "No movement from 101.7m") changes nothing. */
  lemma UnknownCodeIgnored(s: State, line: string, index: map<string, string>, altitudeOf: AltitudeFormula)
    requires Indexed(s, index) && !StartsWith(line, "$PMTK") && |Tokens(line)| > 1
    requires var code := Tokens(line)[0]; !IsMeasurement(code) && code != "BST" && code != "SET"
    ensures Step(s, line, index, altitudeOf) == (s, Completed)
  {
  }

  /**
   * A PMTK line changes only the PMTK output files, and ends in the PMTK parser's
   * exception if it throws one.
   */
  lemma PmtkLineOnlyLogs(s: State, line: string, index: map<string, string>, altitudeOf: AltitudeFormula)
    requires Indexed(s, index) && StartsWith(line, "$PMTK")
    ensures var (files, failure) := Locus.FreshParser(s.locus, line);
      Step(s, line, index, altitudeOf) == (s.(locus := files), if failure.Some? then Threw(LocusFault(failure.value)) else Completed)
  {
    PmtkLineNoCode(line);
  }

  /**
   * Every `$PMTKLOX` line of mode 2 throws, whatever came before: the parser built for
   * it has no writers to close, even after a mode-0 line.
   */
  lemma PmtkEndThrows(s: State, line: string, split: seq<string>, index: map<string, string>, altitudeOf: AltitudeFormula)
    requires Indexed(s, index) && StartsWith(line, "$PMTK")
    requires Locus.LineFields(line) == Some(split) && split[0] == "$PMTKLOX" && |split| >= 2 && split[1] == "2"
    ensures Step(s, line, index, altitudeOf).1 == Threw(LocusFault(Locus.NoSink))
  {
    Locus.FreshParserFails(s.locus, line, split);
  }

  /** The PMTK output files of a new decoder stay empty, whatever lines follow (stated for each decoder's own `State`). */
  lemma PmtkFilesStayEmpty(s: State, line: string, index: map<string, string>, altitudeOf: AltitudeFormula)
    requires Indexed(s, index) && s.locus == Start().locus
    ensures Step(s, line, index, altitudeOf).0.locus == s.locus
  {
    Locus.FreshParserOnlyTruncates(s.locus, line);
  }

  /** A PRS, BFV, TMP or BAT line changes the readings and nothing else. */
  lemma MeasurementOnlyReads(s: State, line: string, index: map<string, string>, altitudeOf: AltitudeFormula)
    requires Indexed(s, index) && |Tokens(line)| > 1 && IsMeasurement(Tokens(line)[0])
    ensures var (r, outcome) := Measure(s.readings, Tokens(line), s.qnh, altitudeOf);
      Step(s, line, index, altitudeOf) == (s.(readings := r), outcome)
  {
    CodedLineNotPmtk(line);
  }

  /** A BST line replaces the codes with the tokens after BST and changes nothing else. */
  lemma BstStoresKeys(s: State, line: string, index: map<string, string>, altitudeOf: AltitudeFormula)
    requires Indexed(s, index) && |Tokens(line)| > 1 && Tokens(line)[0] == "BST"
    ensures Step(s, line, index, altitudeOf) == (s.(parameterKeys := Tokens(line)[1..], hasParameterKeys := true), Completed)
  {
    CodedLineNotPmtk(line);
  }

  /** A SET line before any BST line is ignored. */
  lemma SetBeforeKeysIgnored(s: State, line: string, index: map<string, string>, altitudeOf: AltitudeFormula)
    requires Indexed(s, index) && |Tokens(line)| > 1 && Tokens(line)[0] == "SET" && !s.hasParameterKeys
    ensures Step(s, line, index, altitudeOf) == (s, Completed)
  {
    CodedLineNotPmtk(line);
  }

  /** A SET value that is no decimal `int` throws NumberFormatException with nothing changed. */
  lemma SetBadNumberChangesNothing(s: State, line: string, index: map<string, string>, altitudeOf: AltitudeFormula)
    requires Indexed(s, index) && |Tokens(line)| > 1 && Tokens(line)[0] == "SET" && s.hasParameterKeys
    requires exists i :: 2 <= i < |Tokens(line)| && ParseInt(Tokens(line)[i], 10).None?
    ensures Step(s, line, index, altitudeOf) == (s, Threw(NumberFormat))
  {
    CodedLineNotPmtk(line);
    var tokens := Tokens(line);
    var i :| 2 <= i < |tokens| && ParseInt(tokens[i], 10).None?;
    assert tokens[2..][i - 2] == tokens[i];
  }

  /** A SET line repeating the stored values changes nothing, not even the "changed" flag. */
  lemma RepeatedValuesIgnored(s: State, line: string, index: map<string, string>, altitudeOf: AltitudeFormula, vals: seq<Int32>)
    requires Indexed(s, index) && |Tokens(line)| > 1 && Tokens(line)[0] == "SET" && s.hasParameterKeys
    requires ParseValues(Tokens(line)[2..]) == Some(vals) && s.stored == Some(vals)
    ensures Step(s, line, index, altitudeOf) == (s, Completed)
  {
    CodedLineNotPmtk(line);
  }

  /**
   * New SET values that differ in number from the codes are stored, give no parameter a
   * value, and still raise the "parameters changed" flag.
   */
  lemma SetCountMismatchFlagged(s: State, line: string, index: map<string, string>, altitudeOf: AltitudeFormula, vals: seq<Int32>)
    requires Indexed(s, index) && |Tokens(line)| > 1 && Tokens(line)[0] == "SET" && s.hasParameterKeys
    requires ParseValues(Tokens(line)[2..]) == Some(vals) && s.stored != Some(vals) && |vals| != |s.parameterKeys|
    ensures Step(s, line, index, altitudeOf) == (s.(stored := Some(vals), hasValues := true, changedParameters := true), Completed)
  {
    CodedLineNotPmtk(line);
  }

  /**
   * New SET values matching the codes in number, where some code names no parameter, are
   * stored but throw before the "parameters changed" flag is raised.
   */
  lemma SetUnknownCodeThrows(s: State, line: string, index: map<string, string>, altitudeOf: AltitudeFormula, vals: seq<Int32>)
    requires Indexed(s, index) && |Tokens(line)| > 1 && Tokens(line)[0] == "SET" && s.hasParameterKeys
    requires ParseValues(Tokens(line)[2..]) == Some(vals) && s.stored != Some(vals) && |vals| == |s.parameterKeys|
    requires exists i :: 0 <= i < |s.parameterKeys| && s.parameterKeys[i] !in index
    ensures var (next, outcome) := Step(s, line, index, altitudeOf);
      outcome == Threw(UnknownCode) && next.changedParameters == s.changedParameters
      && next.stored == Some(vals) && next.hasValues
  {
    CodedLineNotPmtk(line);
    SweepCompletes(s.values, index, s.parameterKeys, vals);
  }

  /**
   * Once a SET line has thrown on an unknown code, sending the same line again is
   * ignored: the values are already stored, so the "parameters changed" flag is never
   * raised for them.
   */
  lemma UnknownCodeRetryIgnored(s: State, line: string, index: map<string, string>, altitudeOf: AltitudeFormula, vals: seq<Int32>)
    requires Indexed(s, index) && |Tokens(line)| > 1 && Tokens(line)[0] == "SET" && s.hasParameterKeys
    requires ParseValues(Tokens(line)[2..]) == Some(vals) && s.stored != Some(vals) && |vals| == |s.parameterKeys|
    requires exists i :: 0 <= i < |s.parameterKeys| && s.parameterKeys[i] !in index
    ensures var next := Step(s, line, index, altitudeOf).0;
      Indexed(next, index) && Step(next, line, index, altitudeOf) == (next, Completed)
      && next.changedParameters == s.changedParameters
  {
    SetUnknownCodeThrows(s, line, index, altitudeOf, vals);
    var next := Step(s, line, index, altitudeOf).0;
    assert next.hasParameterKeys;
    RepeatedValuesIgnored(next, line, index, altitudeOf, vals);
  }

  /**
   * New SET values answering a BST line of known, distinct codes give the parameter of
   * code `i` value `i` (a negative value is refused by the parameter), leave every other
   * parameter alone, and raise the "parameters changed" flag.
   */
  lemma SetAppliesValues(s: State, line: string, index: map<string, string>, altitudeOf: AltitudeFormula, vals: seq<Int32>)
    requires Indexed(s, index) && OneToOne(index) && |Tokens(line)| > 1 && Tokens(line)[0] == "SET" && s.hasParameterKeys
    requires ParseValues(Tokens(line)[2..]) == Some(vals) && s.stored != Some(vals) && |vals| == |s.parameterKeys|
    requires Distinct(s.parameterKeys) && forall i :: 0 <= i < |s.parameterKeys| ==> s.parameterKeys[i] in index
    ensures var (next, outcome) := Step(s, line, index, altitudeOf);
      && outcome == Completed && next.changedParameters && next.stored == Some(vals)
      && (forall i :: 0 <= i < |vals| ==> next.values[index[s.parameterKeys[i]]] == s.values[index[s.parameterKeys[i]]].Set(vals[i]))
      && (forall name :: name in s.values && (forall i :: 0 <= i < |vals| ==> index[s.parameterKeys[i]] != name) ==> next.values[name] == s.values[name])
  {
    CodedLineNotPmtk(line);
    SweepCompletes(s.values, index, s.parameterKeys, vals);
    SweepSets(s.values, index, s.parameterKeys, vals);
  }

  // ---------------------------------------------------------------------------
  // Properties of a reset

  /** A reset clears every parameter's user value and every reading, and keeps the flags. */
  lemma ResetClears(s: State)
    ensures var r := Reset(s);
      && (forall name :: name in r.values ==> !r.values[name].hasUserValue && r.values[name].Value() == -1)
      && !r.hasParameterKeys && !r.hasValues && r.stored == Some([])
      && r.readings.altitude.NaN? && r.readings.battery.NaN? && r.readings.temperature.NaN?
      && r.readings.hardwareVersion == NoVersion
      && r.parameterKeys == []
      && r.changedParameters == s.changedParameters && r.readings.altitudeFlag == s.readings.altitudeFlag
      && r.readings.hardwareVersionFlag == s.readings.hardwareVersionFlag
      && r.readings.batteryFlag == s.readings.batteryFlag && r.readings.temperatureFlag == s.readings.temperatureFlag
      && r.qnh == s.qnh && r.locus == s.locus
  {
  }

  /** After a reset and a BST line, a SET line carrying no values is taken as a repeat of the empty array and ignored. */
  lemma EmptySetAfterResetIgnored(s: State, bst: string, values: string, index: map<string, string>, altitudeOf: AltitudeFormula)
    requires Indexed(s, index) && |Tokens(bst)| > 1 && Tokens(bst)[0] == "BST"
    requires |Tokens(values)| == 2 && Tokens(values)[0] == "SET"
    ensures var afterKeys := Step(Reset(s), bst, index, altitudeOf).0;
      Indexed(afterKeys, index) && Step(afterKeys, values, index, altitudeOf) == (afterKeys, Completed)
  {
    BstStoresKeys(Reset(s), bst, index, altitudeOf);
    var afterKeys := Step(Reset(s), bst, index, altitudeOf).0;
    assert Tokens(values)[2..] == [];
    RepeatedValuesIgnored(afterKeys, values, index, altitudeOf, []);
  }

  // ---------------------------------------------------------------------------
  // The decoder object

  /** `BFV`: the older decoder object, its fields updated in place line by line. */
  class Decoder {
    /** The barometric formula turning a pressure and the QNH into an altitude. */
    const altitudeOf: AltitudeFormula
    /** `parameterCodeToName`, filled once by the constructor. */
    const parameterCodeToName: map<string, string>

    var qnh: Float
    /** `rawAltitudeFromDevice`, `batteryFromDevice`, `temperatureFromDevice`, `hardwareVersionFromDevice` and their `changed...` flags. */
    var readings: Readings

    var hasParameterKeys: bool
    var parameterKeys: seq<string>
    var hasValues: bool
    /** `parameterValuesFromDevice`, None while null. */
    var stored: Option<seq<Int32>>
    var changedParameters: bool

    /** The user value of each parameter, by name. */
    var parameters: map<string, UserValue>
    /** The PMTK output files. */
    var locus: Locus.Log

    /** Every name the code index yields is a parameter with a user value. */
    ghost predicate Valid()
      reads this
    {
      NamesKnown(parameterCodeToName, parameters)
    }

    /** The decoder's fields as a state. */
    function Snapshot(): State
      reads this
    {
      State(qnh, readings, hasParameterKeys, parameterKeys, hasValues, stored, changedParameters, parameters, locus)
    }

    /** `BFV()`: version "n/a", NaN readings, the standard QNH, and the code index built entry by entry. */
    constructor (altitudeOf: AltitudeFormula)
      ensures Valid() && Snapshot() == Start() && this.altitudeOf == altitudeOf
      ensures parameterCodeToName == Registry.CodeToName()
    {
      var index := BuildCodeIndex();
      this.altitudeOf := altitudeOf;
      parameterCodeToName := index;
      qnh := StandardQnh;
      readings := Readings(NaN, NaN, NaN, NoVersion, false, false, false, false);
      hasParameterKeys := false;
      parameterKeys := [];
      hasValues := false;
      stored := None;
      changedParameters := false;
      parameters := AllSetTo(Registry.ParameterNames(), Initial);
      locus := Locus.Log(Locus.Missing, [], []);
      IndexNamesKnown(Initial);
    }

    /** `parseRawDataFromDevice`: the state moves as `Step` says, and the outcome is the one `Step` gives. */
    method ParseRawDataFromDevice(line: string) returns (outcome: Outcome)
      requires Valid()
      modifies this
      ensures Valid()
      ensures (Snapshot(), outcome) == Step(old(Snapshot()), line, parameterCodeToName, altitudeOf)
    {
      if StartsWith(line, "$PMTK") {
        var next, failure := Locus.ParseFresh(locus, line);
        locus := next;
        if failure.Some? {
          return Threw(LocusFault(failure.value));
        }
      }
      outcome := DispatchLine(Tokens(line));
    }

    /** The `switch` of `parseRawDataFromDevice`. */
    method DispatchLine(split: seq<string>) returns (outcome: Outcome)
      requires Valid()
      modifies this
      ensures Valid()
      ensures (Snapshot(), outcome) == Dispatch(old(Snapshot()), split, parameterCodeToName, altitudeOf)
    {
      outcome := Completed;
      if |split| > 1 {
        if split[0] == "PRS" {
          outcome := SetAltitudeFromDevice(split);
        } else if split[0] == "BFV" {
          SetHardwareVersionFromDevice(split);
        } else if split[0] == "TMP" {
          outcome := SetTemperatureFromDevice(split);
        } else if split[0] == "BAT" {
          outcome := SetBatteryFromDevice(split);
        } else if split[0] == "BST" {
          UpdateParameterKeysFromDevice(split[1..]);
        } else if split[0] == "SET" && hasParameterKeys {
          var vals := ParseValues(split[2..]);
          if vals.None? {
            return Threw(NumberFormat);
          }
          outcome := UpdateParameterValuesFromDevice(vals.value);
        }
      }
    }

    /** `setAltitudeFomDevice`: a PRS line; the altitude and its flag change only when the new altitude differs. */
    method SetAltitudeFromDevice(tokens: seq<string>) returns (outcome: Outcome)
      requires |tokens| > 1 && tokens[0] == "PRS"
      modifies this
      ensures (Snapshot(), outcome) == MeasureState(old(Snapshot()), tokens, altitudeOf)
    {
      var pressure := ParseInt(tokens[1], 16);
      if pressure.None? {
        return Threw(NumberFormat);
      }
      var altitude := altitudeOf(pressure.value, qnh);
      if Differs(readings.altitude, altitude) {
        readings := readings.(altitude := altitude, altitudeFlag := true);
      }
      outcome := Completed;
    }

    /** `setHardwareVersionFromDevice`: a BFV line. */
    method SetHardwareVersionFromDevice(tokens: seq<string>)
      requires |tokens| > 1 && tokens[0] == "BFV"
      modifies this
      ensures (Snapshot(), Completed) == MeasureState(old(Snapshot()), tokens, altitudeOf)
    {
      readings := readings.(hardwareVersionFlag := true);
      readings := readings.(hardwareVersion := HwVersion(tokens));
    }

    /** `setTemperatureFromDevice`: a TMP line; the flag is raised before the token is parsed. */
    method SetTemperatureFromDevice(tokens: seq<string>) returns (outcome: Outcome)
      requires |tokens| > 1 && tokens[0] == "TMP"
      modifies this
      ensures (Snapshot(), outcome) == MeasureState(old(Snapshot()), tokens, altitudeOf)
    {
      readings := readings.(temperatureFlag := true);
      var t := TemperatureOf(tokens[1]);
      if t.None? {
        return Threw(NumberFormat);
      }
      readings := readings.(temperature := t.value);
      outcome := Completed;
    }

    /** `setBatteryFromDevice`: a BAT line; the flag is raised before the token is parsed. */
    method SetBatteryFromDevice(tokens: seq<string>) returns (outcome: Outcome)
      requires |tokens| > 1 && tokens[0] == "BAT"
      modifies this
      ensures (Snapshot(), outcome) == MeasureState(old(Snapshot()), tokens, altitudeOf)
    {
      readings := readings.(batteryFlag := true);
      var b := BatteryOf(tokens[1]);
      if b.None? {
        return Threw(NumberFormat);
      }
      readings := readings.(battery := b.value);
      outcome := Completed;
    }

    /** `updateParameterKeysFromDevice`. */
    method UpdateParameterKeysFromDevice(keys: seq<string>)
      modifies this
      ensures Snapshot() == old(Snapshot()).(parameterKeys := keys, hasParameterKeys := true)
    {
      parameterKeys := keys;
      hasParameterKeys := true;
    }

    /** `updateParameterValuesFromDevice`: only values differing from the stored array are taken. */
    method UpdateParameterValuesFromDevice(vals: seq<Int32>) returns (outcome: Outcome)
      requires Valid()
      modifies this
      ensures Valid()
      ensures (Snapshot(), outcome) == StoreValues(old(Snapshot()), vals, parameterCodeToName)
    {
      outcome := Completed;
      if stored != Some(vals) {
        stored := Some(vals);
        hasValues := true;
        outcome := UpdateAllUserValues();
        if outcome.Threw? {
          return;
        }
        changedParameters := true;
      }
    }

    /** `updateAllUserValues`. */
    method UpdateAllUserValues() returns (outcome: Outcome)
      requires Valid()
      modifies this
      ensures Valid()
      ensures (Snapshot(), outcome) == UpdateAllUser(old(Snapshot()), parameterCodeToName)
    {
      outcome := Completed;
      if stored.Some? && hasParameterKeys && hasValues && |parameterKeys| == |stored.value| {
        var m, ok := Reconcile(parameters, parameterCodeToName, parameterKeys, stored.value);
        parameters := m;
        if !ok {
          outcome := Threw(UnknownCode);
        }
      }
    }

    /** `setQnh`. */
    method SetQnh(value: Float)
      modifies this
      ensures Snapshot() == old(Snapshot()).(qnh := value)
    {
      qnh := value;
    }

    /** `resetAllValuesFromDevice`. */
    method ResetAllValuesFromDevice()
      requires Valid()
      modifies this
      ensures Valid()
      ensures Snapshot() == Reset(old(Snapshot()))
    {
      parameterKeys := [];
      stored := Some([]);
      hasValues := false;
      hasParameterKeys := false;
      readings := readings.(hardwareVersion := NoVersion, altitude := NaN, battery := NaN, temperature := NaN);
      ResetAllUserValues();
    }

    /** `resetAllUserValues`: each parameter's user value is reset in turn. */
    method ResetAllUserValues()
      modifies this`parameters
      ensures parameters == AllSetTo(old(parameters).Keys, Unset)
    {
      var m := parameters;
      var pending := m.Keys;
      while pending != {}
        invariant m.Keys == parameters.Keys && pending <= m.Keys
        invariant forall name :: name in m ==> m[name] == if name in pending then parameters[name] else Unset
        decreases pending
      {
        var name :| name in pending;
        m := m[name := Unset];
        pending := pending - {name};
      }
      assert m == AllSetTo(parameters.Keys, Unset);
      parameters := m;
    }

    /** `getHwVersion`: the version, its flag lowered. */
    method GetHwVersion() returns (version: string)
      modifies this
      ensures version == old(readings.hardwareVersion)
      ensures Snapshot() == old(Snapshot()).(readings := old(readings).(hardwareVersionFlag := false))
    {
      readings := readings.(hardwareVersionFlag := false);
      version := readings.hardwareVersion;
    }

    /** `getRawAltitude`: the altitude, its flag lowered. */
    method GetRawAltitude() returns (value: Float)
      modifies this
      ensures value == old(readings.altitude)
      ensures Snapshot() == old(Snapshot()).(readings := old(readings).(altitudeFlag := false))
    {
      readings := readings.(altitudeFlag := false);
      value := readings.altitude;
    }

    /** `getTemperature`: the temperature, its flag lowered. */
    method GetTemperature() returns (value: Float)
      modifies this
      ensures value == old(readings.temperature)
      ensures Snapshot() == old(Snapshot()).(readings := old(readings).(temperatureFlag := false))
    {
      readings := readings.(temperatureFlag := false);
      value := readings.temperature;
    }

    /** `getBattery`: the battery voltage, its flag lowered. */
    method GetBattery() returns (value: Float)
      modifies this
      ensures value == old(readings.battery)
      ensures Snapshot() == old(Snapshot()).(readings := old(readings).(batteryFlag := false))
    {
      readings := readings.(batteryFlag := false);
      value := readings.battery;
    }

    /**
     * `isChangedRawAltitudeFromDevice`, `isChangedBatteryFromDevice`,
     * `isChangedTemperatureFromDevice`, `isChangedHardwareVersionFromDevice` and
     * `isChangedParametersFromDevice`: the five flags, read without lowering them.
     */
    method IsChanged() returns (altitude: bool, battery: bool, temperature: bool, hardwareVersion: bool, params: bool)
      ensures altitude == readings.altitudeFlag && battery == readings.batteryFlag
      ensures temperature == readings.temperatureFlag && hardwareVersion == readings.hardwareVersionFlag
      ensures params == changedParameters
    {
      altitude, battery, temperature := readings.altitudeFlag, readings.batteryFlag, readings.temperatureFlag;
      hardwareVersion, params := readings.hardwareVersionFlag, changedParameters;
    }

    /** `readParametersFromDevice`: the "parameters changed" flag is lowered. */
    method ReadParametersFromDevice()
      modifies this
      ensures Snapshot() == old(Snapshot()).(changedParameters := false)
    {
      changedParameters := false;
    }
  }
}

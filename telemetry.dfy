/**
 * The decoder of the current library (`BFVLib.BFV`): the state it keeps between device
 * lines, what one line does to that state, and the object whose methods update it in place.
 */
module Telemetry {
  import opened Wrappers
  import opened JavaText
  import opened Command
  import opened DeviceLines
  import Locus
  import Registry

  /**
   * Everything a decoder remembers between lines: the QNH, the readings and their flags,
   * the BST codes and SET values last received, the user value of every parameter (by
   * name) and the PMTK output files.
   */
  datatype State = State(
    qnh: Float,
    readings: Readings,
    hasParameterKeys: bool,
    parameterKeys: seq<string>,
    hasValues: bool,
    userValues: seq<Int32>,
    updatedValues: bool,
    values: map<string, UserValue>,
    locus: Locus.Log)

  /** Every name the code index can yield is a parameter the state holds a value for. */
  predicate Indexed(s: State, index: map<string, string>) {
    NamesKnown(index, s.values)
  }

  /** A new decoder: no readings, no flags, no codes or values, no parameter value set, no PMTK file open. */
  function Start(): (s: State)
    ensures !s.readings.altitudeFlag && !s.readings.batteryFlag && !s.readings.temperatureFlag
    ensures !s.readings.hardwareVersionFlag && !s.updatedValues
    ensures !s.hasParameterKeys && !s.hasValues
    ensures s.readings.altitude.NaN? && s.readings.temperature.NaN? && s.readings.battery.NaN?
    ensures s.readings.hardwareVersion == "" && s.qnh == StandardQnh
    ensures s.values.Keys == Registry.ParameterNames()
    ensures forall name :: name in s.values ==> !s.values[name].hasUserValue
  {
    State(StandardQnh, Readings(NaN, NaN, NaN, "", false, false, false, false),
          false, [], false, [], false,
          AllSetTo(Registry.ParameterNames(), Initial),
          Locus.Log(Locus.Missing, [], []))
  }

  // ---------------------------------------------------------------------------
  // One device line

  /** A PRS, BFV, TMP or BAT line, applied to the readings. */
  function MeasureState(s: State, tokens: seq<string>, altitudeOf: AltitudeFormula): (State, Outcome)
    requires |tokens| > 1 && IsMeasurement(tokens[0])
  {
    var (r, outcome) := Measure(s.readings, tokens, s.qnh, altitudeOf);
    (s.(readings := r), outcome)
  }

  /**
   * `updateAllValues`: with codes and values at hand and equally many of each, value `i`
   * goes to the parameter of code `i`; only a sweep that reaches the end raises
   * `updatedValues`. An unknown code throws, keeping the values set before it.
   */
  function UpdateAll(s: State, index: map<string, string>): (r: (State, Outcome))
    requires Indexed(s, index)
    ensures r.0 == s.(values := r.0.values, updatedValues := r.0.updatedValues)
    ensures r.0.values.Keys == s.values.Keys
    ensures r.1.Threw? ==> r.1.fault == UnknownCode && r.0.updatedValues == s.updatedValues
    ensures r.0.updatedValues != s.updatedValues ==> r.1 == Completed && r.0.updatedValues
  {
    if s.hasParameterKeys && s.hasValues && |s.parameterKeys| == |s.userValues| then
      var (m, ok) := Sweep(s.values, index, s.parameterKeys, s.userValues);
      if ok then (s.(values := m, updatedValues := true), Completed)
      else (s.(values := m), Threw(UnknownCode))
    else (s, Completed)
  }

  /** `updateValues`: keep the values, then hand them to the parameters. */
  function ReceiveValues(s: State, vals: seq<Int32>, index: map<string, string>): (State, Outcome)
    requires Indexed(s, index)
  {
    UpdateAll(s.(userValues := vals, hasValues := true), index)
  }

  /**
   * The `switch` of `parseLine`: a line of at least two space-separated tokens is
   * dispatched on its first. SET is ignored until a BST line has been seen; its values
   * start at the third token (the second is the device's reset flag), and one that is
   * no decimal `int` throws before anything changes. Other codes are ignored.
   */
  function Dispatch(s: State, tokens: seq<string>, index: map<string, string>, altitudeOf: AltitudeFormula): (r: (State, Outcome))
    requires Indexed(s, index)
    ensures r.0.values.Keys == s.values.Keys
    ensures r.0.qnh == s.qnh && r.0.locus == s.locus
  {
    if |tokens| <= 1 then (s, Completed)
    else if IsMeasurement(tokens[0]) then MeasureState(s, tokens, altitudeOf)
    else if tokens[0] == "BST" then (s.(parameterKeys := tokens[1..], hasParameterKeys := true), Completed)
    else if tokens[0] == "SET" && s.hasParameterKeys then
      match ParseValues(tokens[2..])
      case None => (s, Threw(NumberFormat))
      case Some(vals) => ReceiveValues(s, vals, index)
    else (s, Completed)
  }

  /**
   * `parseLine`: a `$PMTK` line goes to the PMTK parser first, whose exception ends the
   * line; then the line's space-separated tokens are dispatched.
   * The text matches the older decoder's `Step`, but the two act on their own `State`
   * types, since the two classes keep different fields.
   */
  function Step(s: State, line: string, index: map<string, string>, altitudeOf: AltitudeFormula): (r: (State, Outcome))
    requires Indexed(s, index)
    ensures r.0.values.Keys == s.values.Keys
    ensures r.0.qnh == s.qnh
  {
    var (log, failure) := PmtkStep(s.locus, line);
    if failure.Some? then (s.(locus := log), Threw(LocusFault(failure.value)))
    else Dispatch(s.(locus := log), Tokens(line), index, altitudeOf)
  }

  /**
   * `resetAllValues`: codes, values, readings and every parameter's user value are
   * cleared; the "updated" flags are left as they were.
   */
  function Reset(s: State): (r: State)
    ensures r.values.Keys == s.values.Keys
  {
    s.(parameterKeys := [], userValues := [], hasValues := false, hasParameterKeys := false,
       readings := s.readings.(altitude := NaN, battery := NaN, temperature := NaN, hardwareVersion := ""),
       values := AllSetTo(s.values.Keys, Unset))
  }

  // ---------------------------------------------------------------------------
  // Properties of a line

  /** A line that is not PMTK never touches the PMTK output files. */
  lemma PlainLineKeepsLog(s: State, line: string, index: map<string, string>, altitudeOf: AltitudeFormula)
    requires Indexed(s, index) && !StartsWith(line, "$PMTK")
    ensures Step(s, line, index, altitudeOf).0.locus == s.locus
  {
  }

  /** A line of fewer than two tokens changes nothing, unless it is a PMTK line. */
  lemma ShortLineIgnored(s: State, line: string, index: map<string, string>, altitudeOf: AltitudeFormula)
    requires Indexed(s, index) && !StartsWith(line, "$PMTK") && |Tokens(line)| <= 1
    ensures Step(s, line, index, altitudeOf) == (s, Completed)
  {
  }

  /** A line whose code is none the decoder acts on (say "Bluetooth Connected") changes nothing. */
  lemma UnknownCodeIgnored(s: State, line: string, index: map<string, string>, altitudeOf: AltitudeFormula)
    requires Indexed(s, index) && !StartsWith(line, "$PMTK") && |Tokens(line)| > 1
    requires var code := Tokens(line)[0]; !IsMeasurement(code) && code != "BST" && code != "SET"
    ensures Step(s, line, index, altitudeOf) == (s, Completed)
  {
  }

  /**
   * A PMTK line changes only the PMTK output files, and ends in the PMTK parser's
   * exception if it throws one.
   */
  lemma PmtkLineOnlyLogs(s: State, line: string, index: map<string, string>, altitudeOf: AltitudeFormula)
    requires Indexed(s, index) && StartsWith(line, "$PMTK")
    ensures var (files, failure) := Locus.FreshParser(s.locus, line);
      Step(s, line, index, altitudeOf) == (s.(locus := files), if failure.Some? then Threw(LocusFault(failure.value)) else Completed)
  {
    PmtkLineNoCode(line);
  }

  /**
   * Every `$PMTKLOX` line of mode 2 throws, whatever came before: the parser built for
   * it has no writers to close, even after a mode-0 line.
   */
  lemma PmtkEndThrows(s: State, line: string, split: seq<string>, index: map<string, string>, altitudeOf: AltitudeFormula)
    requires Indexed(s, index) && StartsWith(line, "$PMTK")
    requires Locus.LineFields(line) == Some(split) && split[0] == "$PMTKLOX" && |split| >= 2 && split[1] == "2"
    ensures Step(s, line, index, altitudeOf).1 == Threw(LocusFault(Locus.NoSink))
  {
    Locus.FreshParserFails(s.locus, line, split);
  }

  /** The PMTK output files of a new decoder stay empty, whatever lines follow (stated for each decoder's own `State`). */
  lemma PmtkFilesStayEmpty(s: State, line: string, index: map<string, string>, altitudeOf: AltitudeFormula)
    requires Indexed(s, index) && s.locus == Start().locus
    ensures Step(s, line, index, altitudeOf).0.locus == s.locus
  {
    Locus.FreshParserOnlyTruncates(s.locus, line);
  }

  /** A PRS, BFV, TMP or BAT line changes the readings and nothing else. */
  lemma MeasurementOnlyReads(s: State, line: string, index: map<string, string>, altitudeOf: AltitudeFormula)
    requires Indexed(s, index) && |Tokens(line)| > 1 && IsMeasurement(Tokens(line)[0])
    ensures var (r, outcome) := Measure(s.readings, Tokens(line), s.qnh, altitudeOf);
      Step(s, line, index, altitudeOf) == (s.(readings := r), outcome)
  {
    CodedLineNotPmtk(line);
  }

  /** A BST line replaces the codes with the tokens after BST and changes nothing else. */
  lemma BstStoresKeys(s: State, line: string, index: map<string, string>, altitudeOf: AltitudeFormula)
    requires Indexed(s, index) && |Tokens(line)| > 1 && Tokens(line)[0] == "BST"
    ensures Step(s, line, index, altitudeOf) == (s.(parameterKeys := Tokens(line)[1..], hasParameterKeys := true), Completed)
  {
    CodedLineNotPmtk(line);
  }

  /** A SET line before any BST line is ignored. */
  lemma SetBeforeKeysIgnored(s: State, line: string, index: map<string, string>, altitudeOf: AltitudeFormula)
    requires Indexed(s, index) && |Tokens(line)| > 1 && Tokens(line)[0] == "SET" && !s.hasParameterKeys
    ensures Step(s, line, index, altitudeOf) == (s, Completed)
  {
    CodedLineNotPmtk(line);
  }

  /** A SET value that is no decimal `int` throws NumberFormatException with nothing changed. */
  lemma SetBadNumberChangesNothing(s: State, line: string, index: map<string, string>, altitudeOf: AltitudeFormula)
    requires Indexed(s, index) && |Tokens(line)| > 1 && Tokens(line)[0] == "SET" && s.hasParameterKeys
    requires exists i :: 2 <= i < |Tokens(line)| && ParseInt(Tokens(line)[i], 10).None?
    ensures Step(s, line, index, altitudeOf) == (s, Threw(NumberFormat))
  {
    CodedLineNotPmtk(line);
    var tokens := Tokens(line);
    var i :| 2 <= i < |tokens| && ParseInt(tokens[i], 10).None?;
    assert tokens[2..][i - 2] == tokens[i];
  }

  /**
   * A SET line with a different number of values than codes keeps the values but gives
   * no parameter a value and leaves `updatedValues` alone.
   */
  lemma SetCountMismatch(s: State, line: string, index: map<string, string>, altitudeOf: AltitudeFormula, vals: seq<Int32>)
    requires Indexed(s, index) && |Tokens(line)| > 1 && Tokens(line)[0] == "SET" && s.hasParameterKeys
    requires ParseValues(Tokens(line)[2..]) == Some(vals) && |vals| != |s.parameterKeys|
    ensures Step(s, line, index, altitudeOf) == (s.(userValues := vals, hasValues := true), Completed)
  {
    CodedLineNotPmtk(line);
  }

  /**
   * A SET line matching the BST codes in number, where some code names no parameter,
   * throws; `updatedValues` is left as it was.
   */
  lemma SetUnknownCodeThrows(s: State, line: string, index: map<string, string>, altitudeOf: AltitudeFormula, vals: seq<Int32>)
    requires Indexed(s, index) && |Tokens(line)| > 1 && Tokens(line)[0] == "SET" && s.hasParameterKeys
    requires ParseValues(Tokens(line)[2..]) == Some(vals) && |vals| == |s.parameterKeys|
    requires exists i :: 0 <= i < |s.parameterKeys| && s.parameterKeys[i] !in index
    ensures var (next, outcome) := Step(s, line, index, altitudeOf);
      outcome == Threw(UnknownCode) && next.updatedValues == s.updatedValues
      && next.userValues == vals && next.hasValues
  {
    CodedLineNotPmtk(line);
    SweepCompletes(s.values, index, s.parameterKeys, vals);
  }

  /**
   * A SET line answering a BST line of known, distinct codes gives the parameter of code
   * `i` value `i` (a negative value is refused by the parameter), leaves every other
   * parameter alone, and raises `updatedValues`.
   */
  lemma SetAppliesValues(s: State, line: string, index: map<string, string>, altitudeOf: AltitudeFormula, vals: seq<Int32>)
    requires Indexed(s, index) && OneToOne(index) && |Tokens(line)| > 1 && Tokens(line)[0] == "SET" && s.hasParameterKeys
    requires ParseValues(Tokens(line)[2..]) == Some(vals) && |vals| == |s.parameterKeys|
    requires Distinct(s.parameterKeys) && forall i :: 0 <= i < |s.parameterKeys| ==> s.parameterKeys[i] in index
    ensures var (next, outcome) := Step(s, line, index, altitudeOf);
      && outcome == Completed && next.updatedValues
      && (forall i :: 0 <= i < |vals| ==> next.values[index[s.parameterKeys[i]]] == s.values[index[s.parameterKeys[i]]].Set(vals[i]))
      && (forall name :: name in s.values && (forall i :: 0 <= i < |vals| ==> index[s.parameterKeys[i]] != name) ==> next.values[name] == s.values[name])
  {
    CodedLineNotPmtk(line);
    SweepCompletes(s.values, index, s.parameterKeys, vals);
    SweepSets(s.values, index, s.parameterKeys, vals);
  }

  // ---------------------------------------------------------------------------
  // Properties of a reset

  /** A reset clears every parameter's user value and every reading, and keeps the flags. */
  lemma ResetClears(s: State)
    ensures var r := Reset(s);
      && (forall name :: name in r.values ==> !r.values[name].hasUserValue && r.values[name].Value() == -1)
      && !r.hasParameterKeys && !r.hasValues
      && r.readings.altitude.NaN? && r.readings.battery.NaN? && r.readings.temperature.NaN? && r.readings.hardwareVersion == ""
      && r.parameterKeys == [] && r.userValues == []
      && r.updatedValues == s.updatedValues && r.readings.altitudeFlag == s.readings.altitudeFlag
      && r.readings.hardwareVersionFlag == s.readings.hardwareVersionFlag
      && r.readings.batteryFlag == s.readings.batteryFlag && r.readings.temperatureFlag == s.readings.temperatureFlag
      && r.qnh == s.qnh && r.locus == s.locus
  {
  }

  /** Resetting twice is resetting once. */
  lemma ResetIdempotent(s: State)
    ensures Reset(Reset(s)) == Reset(s)
  {
  }

  /** After a reset a SET line is ignored until the next BST line. */
  lemma SetAfterResetIgnored(s: State, line: string, index: map<string, string>, altitudeOf: AltitudeFormula)
    requires Indexed(s, index) && |Tokens(line)| > 1 && Tokens(line)[0] == "SET"
    ensures Step(Reset(s), line, index, altitudeOf) == (Reset(s), Completed)
  {
    SetBeforeKeysIgnored(Reset(s), line, index, altitudeOf);
  }

  // ---------------------------------------------------------------------------
  // The decoder object

  /** `BFV`: the decoder object, its fields updated in place line by line. */
  class Decoder {
    /** The barometric formula turning a pressure and the QNH into an altitude. */
    const altitudeOf: AltitudeFormula
    /** `parameterCodeToName`, filled once by the constructor. */
    const parameterCodeToName: map<string, string>

    var qnh: Float
    /** `altitude`, `battery`, `temperature`, `hardwareVersion` and their `updated...` flags. */
    var readings: Readings

    var hasParameterKeys: bool
    var parameterKeys: seq<string>
    var hasValues: bool
    var userValues: seq<Int32>
    var updatedValues: bool

    /** The user value of each parameter, by name. */
    var parameters: map<string, UserValue>
    /** The PMTK output files. */
    var locus: Locus.Log

    /** Every name the code index yields is a parameter with a user value. */
    ghost predicate Valid()
      reads this
    {
      NamesKnown(parameterCodeToName, parameters)
    }

    /** The decoder's fields as a state. */
    function Snapshot(): State
      reads this
    {
      State(qnh, readings, hasParameterKeys, parameterKeys, hasValues, userValues, updatedValues, parameters, locus)
    }

    /** `BFV()`: the parameter table's code index is built entry by entry. */
    constructor (altitudeOf: AltitudeFormula)
      ensures Valid() && Snapshot() == Start() && this.altitudeOf == altitudeOf
      ensures parameterCodeToName == Registry.CodeToName()
    {
      var index := BuildCodeIndex();
      this.altitudeOf := altitudeOf;
      parameterCodeToName := index;
      qnh := StandardQnh;
      readings := Readings(NaN, NaN, NaN, "", false, false, false, false);
      hasParameterKeys := false;
      parameterKeys := [];
      hasValues := false;
      userValues := [];
      updatedValues := false;
      parameters := AllSetTo(Registry.ParameterNames(), Initial);
      locus := Locus.Log(Locus.Missing, [], []);
      IndexNamesKnown(Initial);
    }

    /** `parseLine`: the state moves as `Step` says, and the outcome is the one `Step` gives. */
    method ParseLine(line: string) returns (outcome: Outcome)
      requires Valid()
      modifies this
      ensures Valid()
      ensures (Snapshot(), outcome) == Step(old(Snapshot()), line, parameterCodeToName, altitudeOf)
    {
      if StartsWith(line, "$PMTK") {
        var next, failure := Locus.ParseFresh(locus, line);
        locus := next;
        if failure.Some? {
          return Threw(LocusFault(failure.value));
        }
      }
      outcome := DispatchLine(Tokens(line));
    }

    /** The `switch` of `parseLine`. */
    method DispatchLine(split: seq<string>) returns (outcome: Outcome)
      requires Valid()
      modifies this
      ensures Valid()
      ensures (Snapshot(), outcome) == Dispatch(old(Snapshot()), split, parameterCodeToName, altitudeOf)
    {
      outcome := Completed;
      if |split| > 1 {
        if split[0] == "PRS" {
          outcome := SetAltitudeFromDevice(split);
        } else if split[0] == "BFV" {
          SetHardwareVersion(split);
        } else if split[0] == "TMP" {
          outcome := SetTemperature(split);
        } else if split[0] == "BAT" {
          outcome := SetBattery(split);
        } else if split[0] == "BST" {
          UpdateParameterKeys(split[1..]);
        } else if split[0] == "SET" && hasParameterKeys {
          var vals := ParseValues(split[2..]);
          if vals.None? {
            return Threw(NumberFormat);
          }
          outcome := UpdateValues(vals.value);
        }
      }
    }

    /** `setAltitudeFomDevice`: a PRS line; the altitude and its flag change only when the new altitude differs. */
    method SetAltitudeFromDevice(tokens: seq<string>) returns (outcome: Outcome)
      requires |tokens| > 1 && tokens[0] == "PRS"
      modifies this
      ensures (Snapshot(), outcome) == MeasureState(old(Snapshot()), tokens, altitudeOf)
    {
      var pressure := ParseInt(tokens[1], 16);
      if pressure.None? {
        return Threw(NumberFormat);
      }
      var altitude := altitudeOf(pressure.value, qnh);
      if Differs(readings.altitude, altitude) {
        readings := readings.(altitude := altitude, altitudeFlag := true);
      }
      outcome := Completed;
    }

    /** `setHardwareVersion`: a BFV line. */
    method SetHardwareVersion(tokens: seq<string>)
      requires |tokens| > 1 && tokens[0] == "BFV"
      modifies this
      ensures (Snapshot(), Completed) == MeasureState(old(Snapshot()), tokens, altitudeOf)
    {
      readings := readings.(hardwareVersionFlag := true);
      readings := readings.(hardwareVersion := HwVersion(tokens));
    }

    /** `setTemperature`: a TMP line; the flag is raised before the token is parsed. */
    method SetTemperature(tokens: seq<string>) returns (outcome: Outcome)
      requires |tokens| > 1 && tokens[0] == "TMP"
      modifies this
      ensures (Snapshot(), outcome) == MeasureState(old(Snapshot()), tokens, altitudeOf)
    {
      readings := readings.(temperatureFlag := true);
      var t := TemperatureOf(tokens[1]);
      if t.None? {
        return Threw(NumberFormat);
      }
      readings := readings.(temperature := t.value);
      outcome := Completed;
    }

    /** `setBattery`: a BAT line; the flag is raised before the token is parsed. */
    method SetBattery(tokens: seq<string>) returns (outcome: Outcome)
      requires |tokens| > 1 && tokens[0] == "BAT"
      modifies this
      ensures (Snapshot(), outcome) == MeasureState(old(Snapshot()), tokens, altitudeOf)
    {
      readings := readings.(batteryFlag := true);
      var b := BatteryOf(tokens[1]);
      if b.None? {
        return Threw(NumberFormat);
      }
      readings := readings.(battery := b.value);
      outcome := Completed;
    }

    /** `updateParameterKeys`. */
    method UpdateParameterKeys(keys: seq<string>)
      modifies this
      ensures Snapshot() == old(Snapshot()).(parameterKeys := keys, hasParameterKeys := true)
    {
      parameterKeys := keys;
      hasParameterKeys := true;
    }

    /** `updateValues`. */
    method UpdateValues(vals: seq<Int32>) returns (outcome: Outcome)
      requires Valid()
      modifies this
      ensures Valid()
      ensures (Snapshot(), outcome) == ReceiveValues(old(Snapshot()), vals, parameterCodeToName)
    {
      userValues := vals;
      hasValues := true;
      outcome := UpdateAllValues();
    }

    /** `updateAllValues`. */
    method UpdateAllValues() returns (outcome: Outcome)
      requires Valid()
      modifies this
      ensures Valid()
      ensures (Snapshot(), outcome) == UpdateAll(old(Snapshot()), parameterCodeToName)
    {
      outcome := Completed;
      if hasParameterKeys && hasValues && |parameterKeys| == |userValues| {
        var m, ok := Reconcile(parameters, parameterCodeToName, parameterKeys, userValues);
        parameters := m;
        if !ok {
          return Threw(UnknownCode);
        }
        updatedValues := true;
      }
    }

    /** `setQnh`. */
    method SetQnh(value: Float)
      modifies this
      ensures Snapshot() == old(Snapshot()).(qnh := value)
    {
      qnh := value;
    }

    /** `resetAllValues`. */
    method ResetAllValues()
      requires Valid()
      modifies this
      ensures Valid()
      ensures Snapshot() == Reset(old(Snapshot()))
    {
      parameterKeys := [];
      userValues := [];
      hasValues := false;
      hasParameterKeys := false;
      readings := readings.(hardwareVersion := "", altitude := NaN, battery := NaN, temperature := NaN);
      ResetAllParameterValues();
    }

    /** `resetAllParameterValues`: each parameter's user value is reset in turn. */
    method ResetAllParameterValues()
      modifies this`parameters
      ensures parameters == AllSetTo(old(parameters).Keys, Unset)
    {
      var m := parameters;
      var pending := m.Keys;
      while pending != {}
        invariant m.Keys == parameters.Keys && pending <= m.Keys
        invariant forall name :: name in m ==> m[name] == if name in pending then parameters[name] else Unset
        decreases pending
      {
        var name :| name in pending;
        m := m[name := Unset];
        pending := pending - {name};
      }
      assert m == AllSetTo(parameters.Keys, Unset);
      parameters := m;
    }

    /** `getHwVersion`: the version, its flag lowered. */
    method GetHwVersion() returns (version: string)
      modifies this
      ensures version == old(readings.hardwareVersion)
      ensures Snapshot() == old(Snapshot()).(readings := old(readings).(hardwareVersionFlag := false))
    {
      readings := readings.(hardwareVersionFlag := false);
      version := readings.hardwareVersion;
    }

    /** `getAltitude`: the altitude, its flag lowered. */
    method GetAltitude() returns (value: Float)
      modifies this
      ensures value == old(readings.altitude)
      ensures Snapshot() == old(Snapshot()).(readings := old(readings).(altitudeFlag := false))
    {
      readings := readings.(altitudeFlag := false);
      value := readings.altitude;
    }

    /** `getTemperature`: the temperature, its flag lowered. */
    method GetTemperature() returns (value: Float)
      modifies this
      ensures value == old(readings.temperature)
      ensures Snapshot() == old(Snapshot()).(readings := old(readings).(temperatureFlag := false))
    {
      readings := readings.(temperatureFlag := false);
      value := readings.temperature;
    }

    /** `getBattery`: the battery voltage, its flag lowered. */
    method GetBattery() returns (value: Float)
      modifies this
      ensures value == old(readings.battery)
      ensures Snapshot() == old(Snapshot()).(readings := old(readings).(batteryFlag := false))
    {
      readings := readings.(batteryFlag := false);
      value := readings.battery;
    }

    /**
     * `isUpdatedHardwareVersion`, `isUpdatedAltitude`, `isUpdatedTemperature` and
     * `isUpdatedBattery`: the four reading flags, read without lowering them.
     */
    method IsUpdated() returns (hardwareVersion: bool, altitude: bool, temperature: bool, battery: bool)
      ensures hardwareVersion == readings.hardwareVersionFlag && altitude == readings.altitudeFlag
      ensures temperature == readings.temperatureFlag && battery == readings.batteryFlag
    {
      hardwareVersion, altitude := readings.hardwareVersionFlag, readings.altitudeFlag;
      temperature, battery := readings.temperatureFlag, readings.batteryFlag;
    }

    /** `checkUpdatedValues`: whether values arrived since the last check, the flag then lowered. */
    method CheckUpdatedValues() returns (updated: bool)
      modifies this
      ensures updated == old(updatedValues)
      ensures Snapshot() == old(Snapshot()).(updatedValues := false)
    {
      updated := updatedValues;
      updatedValues := false;
    }
  }
}

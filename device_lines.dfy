/**
 * What both decoder variants share: the exceptions a line can end in, the readings
 * decoded from PRS, BFV, TMP and BAT lines, the SET value list, and the loop that
 * hands each value of a SET line to the parameter named by the matching BST code.
 */
module DeviceLines {
  import opened Wrappers
  import opened JavaText
  import opened Command
  import Locus
  import Registry

  /** The exception a line ends in. */
  datatype Fault =
    | NumberFormat                       // a token Integer.parseInt or Double.parseDouble rejects
    | UnknownCode                        // a BST code naming no parameter: the lookup yields null
    | LocusFault(failure: Locus.Failure) // the PMTK parser threw

  /** How handling a line ends: normally, or with an exception after the changes made so far. */
  datatype Outcome = Completed | Threw(fault: Fault)

  /** `44330 * (1 - (pressure / qnh)^0.190295)`: the barometric formula, a floating-point computation given from outside. */
  type AltitudeFormula = (Int32, Float) -> Float

  /** The readings decoded from device lines and their "changed since last read" flags. */
  datatype Readings = Readings(
    altitude: Float, battery: Float, temperature: Float, hardwareVersion: string,
    altitudeFlag: bool, batteryFlag: bool, temperatureFlag: bool, hardwareVersionFlag: bool)

  /** The space-separated tokens of a device line. */
  function Tokens(line: string): seq<string> {
    Split(line, ' ')
  }

  // ---------------------------------------------------------------------------
  // Token decoders

  /** The hardware version: the second token, joined to the third with a dot when there is one. */
  function HwVersion(tokens: seq<string>): string
    requires |tokens| > 1
  {
    if |tokens| > 2 then tokens[1] + "." + tokens[2] else tokens[1]
  }

  /** The version reads back as its parts: the major part up to the first dot, the minor part after it. */
  lemma HwVersionParts(tokens: seq<string>)
    requires |tokens| > 1 && '.' !in tokens[1]
    ensures TakeUntil(HwVersion(tokens), '.') == tokens[1]
    ensures |tokens| > 2 ==> HwVersion(tokens)[|tokens[1]| + 1..] == tokens[2]
  {
    var v := HwVersion(tokens);
    assert v[..|tokens[1]|] == tokens[1];
    TakeUntilAt(v, '.', |tokens[1]|);
  }

  /** A `double` divided by a whole number. */
  function DivideBy(x: Float, d: real): (r: Float)
    requires d > 0.0
    ensures r.Finite? <==> x.Finite?
  {
    match x
    case Finite(v) => Finite(v / d)
    case _ => x
  }

  /** The temperature of a TMP token: the `double` it spells, in tenths of a degree. */
  function TemperatureOf(token: string): Option<Float> {
    match ParseDouble(token)
    case None => None
    case Some(x) => Some(DivideBy(x, 10.0))
  }

  /** A TMP token of decimal digits is read as a tenth of its value. */
  lemma TemperatureOfDigits(d: string, n: nat)
    requires d != [] && AllDigits(d, 10) && Magnitude(d, 10) == n
    ensures TemperatureOf(d) == Some(Finite(n as real / 10.0))
  {
    ParseDoubleDigits(d, n);
    TemperatureOfFinite(d, n as real);
  }

  /** The temperature is the parsed `double` divided by ten. */
  lemma TemperatureOfDouble(token: string, x: Float)
    requires ParseDouble(token) == Some(x)
    ensures TemperatureOf(token) == Some(DivideBy(x, 10.0))
  {
  }

  /** A finite `double` token reads as a tenth of its value. */
  lemma TemperatureOfFinite(token: string, v: real)
    requires ParseDouble(token) == Some(Finite(v))
    ensures TemperatureOf(token) == Some(Finite(v / 10.0))
  {
  }

  /** The battery voltage of a BAT token: a hex `int` of millivolts. */
  function BatteryOf(token: string): Option<Float> {
    match ParseInt(token, 16)
    case None => None
    case Some(mv) => Some(Finite(mv as real / 1000.0))
  }

  /** Millivolts written as hex read back in volts; the hex of a negative `int` is rejected. */
  lemma BatteryOfHex(mv: Int32)
    ensures mv >= 0 ==> BatteryOf(UpperHexString(mv)) == Some(Finite(mv as real / 1000.0))
    ensures mv < 0 ==> BatteryOf(UpperHexString(mv)) == None
  {
    ParseHexString(mv);
  }

  /** The code of a line that updates one reading. */
  predicate IsMeasurement(code: string) {
    code == "PRS" || code == "BFV" || code == "TMP" || code == "BAT"
  }

  /**
   * A PRS, BFV, TMP or BAT line. PRS replaces the altitude, and raises its flag, only
   * when the new value differs under `!=` (NaN differs from everything). TMP and BAT
   * raise their flag before parsing, so a bad token leaves the flag raised and the
   * value unchanged. Every other reading is left as it was.
   */
  function Measure(r: Readings, tokens: seq<string>, qnh: Float, altitudeOf: AltitudeFormula): (result: (Readings, Outcome))
    requires |tokens| > 1 && IsMeasurement(tokens[0])
    ensures tokens[0] != "PRS" ==> result.0.altitude == r.altitude && result.0.altitudeFlag == r.altitudeFlag
    ensures tokens[0] != "BAT" ==> result.0.battery == r.battery && result.0.batteryFlag == r.batteryFlag
    ensures tokens[0] != "TMP" ==> result.0.temperature == r.temperature && result.0.temperatureFlag == r.temperatureFlag
    ensures tokens[0] != "BFV" ==> result.0.hardwareVersion == r.hardwareVersion && result.0.hardwareVersionFlag == r.hardwareVersionFlag
    ensures result.1.Threw? ==> result.1.fault == NumberFormat && tokens[0] != "BFV"
  {
    if tokens[0] == "PRS" then
      match ParseInt(tokens[1], 16)
      case None => (r, Threw(NumberFormat))
      case Some(pressure) =>
        var altitude := altitudeOf(pressure, qnh);
        if Differs(r.altitude, altitude) then (r.(altitude := altitude, altitudeFlag := true), Completed)
        else (r, Completed)
    else if tokens[0] == "BFV" then
      (r.(hardwareVersion := HwVersion(tokens), hardwareVersionFlag := true), Completed)
    else if tokens[0] == "TMP" then
      var flagged := r.(temperatureFlag := true);
      match TemperatureOf(tokens[1])
      case None => (flagged, Threw(NumberFormat))
      case Some(t) => (flagged.(temperature := t), Completed)
    else
      var flagged := r.(batteryFlag := true);
      match BatteryOf(tokens[1])
      case None => (flagged, Threw(NumberFormat))
      case Some(b) => (flagged.(battery := b), Completed)
  }

  /** After a PRS line the altitude is the new value exactly when it differs from the old one, and the flag is raised with it. */
  lemma AltitudeOnChange(r: Readings, tokens: seq<string>, qnh: Float, altitudeOf: AltitudeFormula, pressure: Int32)
    requires |tokens| > 1 && tokens[0] == "PRS" && ParseInt(tokens[1], 16) == Some(pressure)
    ensures var (next, outcome) := Measure(r, tokens, qnh, altitudeOf);
      && outcome == Completed
      && (Differs(r.altitude, altitudeOf(pressure, qnh)) ==> next.altitude == altitudeOf(pressure, qnh) && next.altitudeFlag)
      && (!Differs(r.altitude, altitudeOf(pressure, qnh)) ==> next == r)
  {
  }

  /** TMP and BAT raise their flag whether or not the token parses; a rejected token keeps the old value. */
  lemma FlagBeforeParse(r: Readings, tokens: seq<string>, qnh: Float, altitudeOf: AltitudeFormula)
    requires |tokens| > 1 && (tokens[0] == "TMP" || tokens[0] == "BAT")
    ensures var (next, outcome) := Measure(r, tokens, qnh, altitudeOf);
      && (tokens[0] == "TMP" ==> next.temperatureFlag && (outcome.Threw? <==> TemperatureOf(tokens[1]).None?))
      && (tokens[0] == "BAT" ==> next.batteryFlag && (outcome.Threw? <==> BatteryOf(tokens[1]).None?))
      && (tokens[0] == "TMP" && TemperatureOf(tokens[1]).Some? ==> next.temperature == TemperatureOf(tokens[1]).value && outcome == Completed)
      && (tokens[0] == "BAT" && BatteryOf(tokens[1]).Some? ==> next.battery == BatteryOf(tokens[1]).value && outcome == Completed)
      && (outcome.Threw? ==> next.temperature == r.temperature && next.battery == r.battery)
  {
  }

  /**
   * A BFV line stores the version it carries, its first two tokens after the code joined
   * by a dot (or the one token there is), raises the version flag and completes.
   */
  lemma VersionStored(r: Readings, tokens: seq<string>, qnh: Float, altitudeOf: AltitudeFormula)
    requires |tokens| > 1 && tokens[0] == "BFV"
    ensures Measure(r, tokens, qnh, altitudeOf) == (r.(hardwareVersion := HwVersion(tokens), hardwareVersionFlag := true), Completed)
    ensures |tokens| > 2 ==> HwVersion(tokens) == tokens[1] + "." + tokens[2]
    ensures |tokens| == 2 ==> HwVersion(tokens) == tokens[1]
  {
  }

  // ---------------------------------------------------------------------------
  // PMTK lines

  /** A line starting with `$PMTK` first goes to a PMTK parser built for that line alone, over the output files in `files`. */
  function PmtkStep(files: Locus.Log, line: string): (Locus.Log, Option<Locus.Failure>) {
    if StartsWith(line, "$PMTK") then Locus.FreshParser(files, line) else (files, None)
  }

  /** The first token of a `$PMTK` line starts with `$`, so it is none of the codes the decoders act on. */
  lemma PmtkLineNoCode(line: string)
    requires StartsWith(line, "$PMTK")
    ensures |Tokens(line)| >= 1
    ensures var code := Tokens(line)[0]; !IsMeasurement(code) && code != "BST" && code != "SET"
  {
    var head := TakeUntil(line, ' ');
    assert line[0] == '$';
    assert |head| > 0 && head[0] == '$';
    SplitHead(line, ' ');
  }

  /** A line dispatched on a code is no PMTK line, so the PMTK files are left alone. */
  lemma CodedLineNotPmtk(line: string)
    requires |Tokens(line)| >= 1
    requires var code := Tokens(line)[0]; IsMeasurement(code) || code == "BST" || code == "SET"
    ensures !StartsWith(line, "$PMTK")
  {
    if StartsWith(line, "$PMTK") {
      PmtkLineNoCode(line);
      assert false;
    }
  }

  // ---------------------------------------------------------------------------
  // SET values and the parameter sweep

  /** Every name the code index yields is a parameter in the store. */
  predicate NamesKnown(index: map<string, string>, store: map<string, UserValue>) {
    forall code :: code in index ==> index[code] in store
  }

  /** The values of a SET line after the code and the reset flag: each token a decimal `int`, or None where Java throws. */
  function ParseValues(tokens: seq<string>): (r: Option<seq<Int32>>)
    ensures r.Some? <==> forall i :: 0 <= i < |tokens| ==> ParseInt(tokens[i], 10).Some?
    ensures r.Some? ==> |r.value| == |tokens| && forall i :: 0 <= i < |tokens| ==> Some(r.value[i]) == ParseInt(tokens[i], 10)
  {
    if tokens == [] then Some([])
    else
      var n := |tokens| - 1;
      match ParseValues(tokens[..n])
      case None => None
      case Some(vs) =>
        match ParseInt(tokens[n], 10)
        case None => None
        case Some(v) => Some(vs + [v])
  }

  /** Values written in decimal read back as the same values. */
  lemma ValuesRoundTrip(vs: seq<Int32>, tokens: seq<string>)
    requires |tokens| == |vs| && forall i :: 0 <= i < |vs| ==> tokens[i] == DecimalString(vs[i])
    ensures ParseValues(tokens) == Some(vs)
  {
    forall i | 0 <= i < |vs|
      ensures ParseInt(tokens[i], 10) == Some(vs[i])
    {
      DecimalRoundTrip(vs[i]);
    }
    ParsedValues(vs, tokens);
  }

  lemma ParsedValues(vs: seq<Int32>, tokens: seq<string>)
    requires |tokens| == |vs| && forall i :: 0 <= i < |vs| ==> ParseInt(tokens[i], 10) == Some(vs[i])
    ensures ParseValues(tokens) == Some(vs)
  {
    var r := ParseValues(tokens);
    assert r.Some?;
    assert forall i :: 0 <= i < |vs| ==> r.value[i] == vs[i];
    assert r.value == vs;
  }

  /**
   * The update loop over BST codes and SET values, as a function: value `i` goes to the
   * parameter the index names for code `i`, in order; at the first code the index does
   * not know the loop stops (false), keeping the updates made before it.
   */
  function Sweep(store: map<string, UserValue>, index: map<string, string>, keys: seq<string>, vals: seq<Int32>): (r: (map<string, UserValue>, bool))
    requires |keys| == |vals| && NamesKnown(index, store)
    ensures r.0.Keys == store.Keys
  {
    if keys == [] then (store, true)
    else
      var n := |keys| - 1;
      var (m, ok) := Sweep(store, index, keys[..n], vals[..n]);
      if !ok || keys[n] !in index then (m, false)
      else
        var name := index[keys[n]];
        (m[name := m[name].Set(vals[n])], true)
  }

  /** Once the sweep has stopped, later codes change nothing. */
  lemma {:induction false} SweepStopped(store: map<string, UserValue>, index: map<string, string>, keys: seq<string>, vals: seq<Int32>, n: nat)
    requires |keys| == |vals| && NamesKnown(index, store) && n <= |keys|
    requires !Sweep(store, index, keys[..n], vals[..n]).1
    ensures Sweep(store, index, keys, vals) == Sweep(store, index, keys[..n], vals[..n])
    decreases |keys| - n
  {
    if n < |keys| {
      var m := |keys| - 1;
      assert keys[..m][..n] == keys[..n] && vals[..m][..n] == vals[..n];
      SweepStopped(store, index, keys[..m], vals[..m], n);
    } else {
      assert keys[..n] == keys && vals[..n] == vals;
    }
  }

  /** The sweep completes exactly when the index knows every code. */
  lemma {:induction false} SweepCompletes(store: map<string, UserValue>, index: map<string, string>, keys: seq<string>, vals: seq<Int32>)
    requires |keys| == |vals| && NamesKnown(index, store)
    ensures Sweep(store, index, keys, vals).1 <==> forall i :: 0 <= i < |keys| ==> keys[i] in index
  {
    if keys != [] {
      var n := |keys| - 1;
      SweepCompletes(store, index, keys[..n], vals[..n]);
      assert forall i :: 0 <= i < n ==> keys[..n][i] == keys[i];
    }
  }

  /**
   * With known, distinct codes and an index that maps no two codes to one name, the
   * parameter named by code `i` ends with value `i` applied, and every other parameter
   * keeps its value.
   */
  lemma {:induction false} SweepSets(store: map<string, UserValue>, index: map<string, string>, keys: seq<string>, vals: seq<Int32>)
    requires |keys| == |vals| && NamesKnown(index, store)
    requires forall i :: 0 <= i < |keys| ==> keys[i] in index
    requires forall i, j :: 0 <= i < j < |keys| ==> keys[i] != keys[j]
    requires forall a, b :: a in index && b in index && index[a] == index[b] ==> a == b
    ensures forall i :: 0 <= i < |keys| ==> Sweep(store, index, keys, vals).0[index[keys[i]]] == store[index[keys[i]]].Set(vals[i])
    ensures forall name :: name in store && (forall i :: 0 <= i < |keys| ==> index[keys[i]] != name) ==> Sweep(store, index, keys, vals).0[name] == store[name]
  {
    if keys != [] {
      var n := |keys| - 1;
      var ks, vs := keys[..n], vals[..n];
      SweepSets(store, index, ks, vs);
      SweepCompletes(store, index, ks, vs);
      var m := Sweep(store, index, ks, vs).0;
      var last := index[keys[n]];
      assert forall i :: 0 <= i < n ==> ks[i] == keys[i] && vs[i] == vals[i];
      assert m[last] == store[last] by {
        forall i | 0 <= i < n
          ensures index[ks[i]] != last
        {
          assert keys[i] != keys[n];
        }
      }
    }
  }

  /** The update loop of `updateAllValues` / `updateAllUserValues`. */
  method Reconcile(store: map<string, UserValue>, index: map<string, string>, keys: seq<string>, vals: seq<Int32>)
    returns (m: map<string, UserValue>, ok: bool)
    requires |keys| == |vals| && NamesKnown(index, store)
    ensures (m, ok) == Sweep(store, index, keys, vals)
  {
    m := store;
    var i := 0;
    while i < |keys| && i < |vals|
      invariant 0 <= i <= |keys|
      invariant (m, true) == Sweep(store, index, keys[..i], vals[..i])
    {
      assert keys[..i + 1][..i] == keys[..i] && vals[..i + 1][..i] == vals[..i];
      if keys[i] !in index {
        SweepStopped(store, index, keys, vals, i + 1);
        return m, false;
      }
      var name := index[keys[i]];
      m := m[name := m[name].Set(vals[i])];
      i := i + 1;
    }
    assert keys[..i] == keys && vals[..i] == vals;
    ok := true;
  }

  // ---------------------------------------------------------------------------
  // What both decoders start from

  /** The code index names each parameter through exactly one code. */
  predicate OneToOne(index: map<string, string>) {
    forall a, b :: a in index && b in index && index[a] == index[b] ==> a == b
  }

  /** The codes are pairwise different. */
  predicate Distinct(keys: seq<string>) {
    forall i, j :: 0 <= i < j < |keys| ==> keys[i] != keys[j]
  }

  /** The standard sea-level pressure the decoder starts with, in pascals. */
  const StandardQnh: Float := Finite(101325.0)

  /** Every named parameter with the same user value. */
  function AllSetTo(names: set<string>, v: UserValue): (m: map<string, UserValue>)
    ensures m.Keys == names
    ensures forall name :: name in m ==> m[name] == v
  {
    map name | name in names :: v
  }

  /** The constructors' loop filling `parameterCodeToName` from the parameter table, entry by entry. */
  method BuildCodeIndex() returns (index: map<string, string>)
    ensures index == Registry.CodeToName()
  {
    index := map[];
    var i := 0;
    while i < |Registry.Parameters|
      invariant 0 <= i <= |Registry.Parameters|
      invariant index == Registry.CodeIndex(Registry.Parameters[..i])
    {
      var p := Registry.Parameters[i];
      assert Registry.Parameters[..i + 1][..i] == Registry.Parameters[..i];
      index := index[p.code := p.name];
      i := i + 1;
    }
    assert Registry.Parameters[..i] == Registry.Parameters;
  }

  /** Every name the code index yields is a parameter of a store holding all parameters. */
  lemma IndexNamesKnown(v: UserValue)
    ensures NamesKnown(Registry.CodeToName(), AllSetTo(Registry.ParameterNames(), v))
  {
    Registry.CodeToNameFacts();
  }
}

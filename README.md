# BlueFlyVario protocol core, modelled in Dafny

BlueFlyVario is a variometer that talks to its host over a serial line. This project
models the Java library that speaks its protocol.

- **Commands.** Each command or parameter has a definition, a user value, the PMTK
  checksum and a wire frame.
- **Registry.** There are fixed tables of 14 commands and 33 typed parameters, with an
  index from wire code to parameter name.
- **Telemetry decoder.** This is the object fed one device line at a time. It keeps the
  readings (altitude, temperature, battery, hardware version) with their "changed"
  flags. It pairs a `BST` line of parameter codes with a `SET` line of values and hands
  each value to its parameter.
- **PMTK LOCUS decoder.** This turns `$PMTKLOX` lines into GPS log records.

The decoder exists twice:

- the current `BFVLib.BFV` (`src/main/java/BFVLib/BFV.java`), module `Telemetry`;
- the older `BFVlib.BFV` (`src/BFVlib/BFV.java`), module `LegacyTelemetry`.

Both are classes whose methods update their fields in place. Each method is proved to
move the object's state exactly as a specification function on a `State` value says
(`Step`, `Dispatch`, `Reset`, ...). The properties of a line or of a reset are then
lemmas about those functions.

| module | file | models |
|---|---|---|
| `Wrappers` | wrappers.dfy | `Option`, `Result` |
| `JavaText` | java_text.dfy | `String.split(" ")`, `Integer.parseInt`, `Integer.toHexString`, `String.valueOf(int)`, `Double.parseDouble`, `String.trim`, `double` values and `!=` on them |
| `Command` | command.dfy | `src/BFVlib/Command.java` |
| `Registry` | registry.dfy | the command and parameter tables and the code index of `src/main/java/BFVLib/BFV.java` (the older file's tables have the same codes, names, types, ranges and defaults) |
| `Locus` | locus.dfy | `src/BFVlib/PMTKParser.java` |
| `DeviceLines` | device_lines.dfy | what both decoders share: token decoders, the measurement lines, the SET values and the sweep that hands them to the parameters |
| `Telemetry` | telemetry.dfy | `src/main/java/BFVLib/BFV.java` |
| `LegacyTelemetry` | legacy_telemetry.dfy | `src/BFVlib/BFV.java` |

**Exceptions.** An exception is modelled as an outcome, `Threw(fault)`, and the state
keeps whatever changed before the throw. The cases are:

- a `NumberFormatException` on a bad number;
- the `NullPointerException` of an unknown BST code, which leaves earlier parameters
  updated;
- the PMTK parser's failures.

Doubles are `Float = NaN | Infinite | Finite(real)`. This is enough to model Java's
`!=`, under which NaN differs from everything. The altitude formula is a function
value handed to the decoder's constructor.

**PMTK lines.** Both decoders do what the code does: each `$PMTK` line goes to a parser
built for that line alone, whose writers are null (`Locus.FreshParser`). So mode 2
always throws, and a mode-1 line throws at its first decodable record. Mode 0 empties
both files, and the line it prints is never flushed. The session the parser was meant
to keep is `Locus.Feed` on output files carried from line to line. In that session,
writers opened by mode 0 stay open until mode 2 closes them (see "## Findings").

## Model

| member | source | states |
|---|---|---|
| JavaText.TakeUntil | src/BFVlib/Command.java:92-98 | the text before the first separator is a prefix free of it, followed by the separator or the end |
| JavaText.Fields | src/main/java/BFVLib/BFV.java:346 | there is at least one field and no field contains the separator |
| JavaText.DropTrailingEmpty | src/main/java/BFVLib/BFV.java:346 | only trailing empty fields are dropped, and what is kept does not end in one |
| JavaText.JoinFields | src/main/java/BFVLib/BFV.java:346 | gluing the fields back with the separator gives the line: splitting loses only the separators |
| JavaText.FieldsCount | src/main/java/BFVLib/BFV.java:346 | there is one more field than occurrences of the separator |
| JavaText.SplitHead | src/main/java/BFVLib/BFV.java:346 | the first token of a line not starting with a space is the text before the first space |
| JavaText.SplitFree | src/main/java/BFVLib/BFV.java:346 | no token contains a space |
| JavaText.SplitDropsTrailingSpace | src/main/java/BFVLib/BFV.java:346-347 | `"PRS "` is a single token, so such a line is not dispatched |
| JavaText.SplitEmptyLine | src/test/java/BFVTest.java:236-237 | the empty line is one empty token, so it is not dispatched |
| JavaText.AlnumValue | src/BFVlib/PMTKParser.java:115-116 | a character's digit value is below 36, or -1 |
| JavaText.DigitValue | src/BFVlib/PMTKParser.java:115-116 | `Character.digit`: a value below the radix exactly for the radix's digits, -1 otherwise |
| JavaText.ParseInt | src/main/java/BFVLib/BFV.java:644 | a text is accepted exactly when it is an optional sign and at least one digit of the radix whose signed value lies in `int` range, and its value is their magnitude, negated after '-' |
| JavaText.DigitChar | src/BFVlib/Command.java:148 | the digit character of `d` has value `d` and is upper case |
| JavaText.Digits | src/BFVlib/Command.java:148 | there is at least one digit and every digit is 0-9 or A-F |
| JavaText.MagnitudeOfDigits | src/BFVlib/Command.java:148 | the digits of `n` read back as `n` |
| JavaText.DigitsNoLeadingZero | src/BFVlib/Command.java:148 | the leading digit is '0' only for zero |
| JavaText.DecimalRoundTrip | src/BFVlib/Command.java:166 | `String.valueOf(int)` read back by `Integer.parseInt(.., 10)` gives the same `int` |
| JavaText.ParseNonNegative | src/main/java/BFVLib/BFV.java:379 | the decimal digits of a non-negative `int` parse to it |
| JavaText.ParseNegative | src/main/java/BFVLib/BFV.java:379 | '-' and the decimal digits of a negative `int`'s magnitude parse to it |
| JavaText.UpperHexValue | src/BFVlib/Command.java:148 | `toHexString(..).toUpperCase()` spells the 32-bit two's-complement value, without leading zeros |
| JavaText.ParseHexString | src/main/java/BFVLib/BFV.java:632 | hex parsing reads back a non-negative `int`'s hex text and rejects a negative one's |
| JavaText.TrimSlice | src/main/java/BFVLib/BFV.java:621 | `String.trim` returns a slice of the text, and everything it cuts off at either end is U+0020 or below |
| JavaText.ExponentAt | src/main/java/BFVLib/BFV.java:621 | the position of the first exponent marker, or the end when there is none |
| JavaText.ParseDoubleFraction | src/main/java/BFVLib/BFV.java:621 | digits, a point and digits read as the number all the digits spell, divided by ten to the number of fraction digits |
| JavaText.ParseDoubleExponent | src/main/java/BFVLib/BFV.java:621 | digits, an `e` and digits read as the first number times ten to the power of the second |
| JavaText.ParseDoubleSpecial | src/main/java/BFVLib/BFV.java:621 | "NaN" and "Infinity", signed or not, read as NaN and the infinity of that sign |
| JavaText.ParseDoubleDigits | src/main/java/BFVLib/BFV.java:621 | decimal digits parse to the `double` of their value |
| JavaText.ParseDoubleNegatedDigits | src/main/java/BFVLib/BFV.java:621 | '-' and decimal digits parse to the negated value |
| Command.UserValue.Set | src/BFVlib/Command.java:212-221 | a non-negative value is stored and marked present; a negative one leaves the user value as it was |
| Command.XorAll | src/BFVlib/Command.java:100 | the XOR of character codes stays below 2^21 |
| Command.Checksum | src/BFVlib/Command.java:88-103 | the checksum is -1 or a non-negative XOR |
| Command.PmtkChecksum | src/BFVlib/Command.java:88-103 | the loop returns -1 when '!' or '$' comes before the first '*', and otherwise the XOR of all characters before it |
| Command.SaturatingInt32 | src/BFVlib/Command.java:233 | the `(int)` cast gives the `int` nearest to the whole number it narrows, so an in-range value is kept and others saturate |
| Command.Command.constructor | src/BFVlib/Command.java:45-52 | a fresh command is PMTK exactly when its code starts with "PMTK", and has a blank definition and no user value or arguments |
| Command.Command.SetDefaultArguments | src/BFVlib/Command.java:54-58 | the command now takes the given default arguments; nothing else changes |
| Command.Command.SetParameters | src/BFVlib/Command.java:60-74 | the command becomes a parameter with the given type, range and factor; the builder's range assertions are kept |
| Command.Command.SetDefaultValue | src/BFVlib/Command.java:76-81 | an in-range default is recorded; nothing else changes |
| Command.Command.CompileWith | src/BFVlib/Command.java:133-137 | the arguments are kept for later compiles, and the frame is the compiled command with them |
| Command.Command.SetUserValue | src/BFVlib/Command.java:212-221 | it returns true exactly for a non-negative value, which becomes the user value; otherwise nothing changes |
| Command.Command.ResetUserValue | src/BFVlib/Command.java:295-298 | the user value becomes unset, reading as -1 |
| Command.Command.ConvertValueToInt | src/BFVlib/Command.java:260-293 | the result is -1 or within [minVal, maxVal]; the type-scaled value is returned exactly when it is in range |
| Command.PmtkFrameChecksum | src/BFVlib/Command.java:144-149 | a PMTK frame ignores the payload, is "$", the code, "*", unpadded upper-case hex of the checksum's 32 bits and CR LF |
| Command.PmtkCommandFrame | src/BFVlib/Command.java:144-149 | a PMTK command compiles to its checksummed frame, whatever arguments or user value it holds |
| Command.ArgumentsFrame | src/BFVlib/Command.java:152-162 | a command with arguments compiles to "$", the code, a space, the user's arguments (else the default) and "*" |
| Command.ValueFrame | src/BFVlib/Command.java:165-170 | a parameter with a user value and no arguments compiles to "$", the code, a space, the decimal value and "*", and that value parses back |
| Command.BareFrame | src/BFVlib/Command.java:165-170 | with neither arguments nor a user value, the frame is "$", the code and "*" |
| Command.IntRoundTrip | src/BFVlib/Command.java:223-293 | for an Int parameter, the shown text of an in-range value parses back to it, and converting it gives it back |
| Command.IntOffsetRoundTrip | src/BFVlib/Command.java:223-293 | for an IntOffset parameter, the shown value plus the factor converts back to the value |
| Command.DoubleRoundTrip | src/BFVlib/Command.java:223-293 | for a Double parameter, an in-range value is shown as its quotient by the factor, and when that quotient is whole, entering it converts back to the value |
| Command.BooleanConversion | src/BFVlib/Command.java:223-293 | for a Boolean parameter, any entry converts to 0 or 1 by whether it is zero, and is shown as false or true |
| Command.StoreConverted | src/BFVlib/Command.java:212-293 | an in-range conversion becomes the user value; an out-of-range one (-1) is refused and nothing changes |
| Registry.DefaultsInRange | src/main/java/BFVLib/BFV.java:108-305 | every parameter satisfies 0 <= min <= default <= max <= 65535 |
| Registry.ParametersDistinct | src/main/java/BFVLib/BFV.java:108-305 | no two parameters share a wire code or a name |
| Registry.CommandsAndParametersDisjoint | src/main/java/BFVLib/BFV.java:55-305 | no name is both a command and a parameter |
| Registry.CodeIndex | src/main/java/BFVLib/BFV.java:308-310 | the index knows exactly the table's codes and yields only the table's names |
| Registry.CodeIndexFinds | src/main/java/BFVLib/BFV.java:308-310 | with distinct codes, each code leads to its own parameter's name |
| Registry.CodeIndexInjective | src/main/java/BFVLib/BFV.java:308-310 | with distinct codes and names, the index is one-to-one and reaches every name |
| Registry.CodeToNameFacts | src/main/java/BFVLib/BFV.java:308-310 | the decoder's index knows the 33 codes, maps each to its parameter, and no two codes to one name |
| Locus.ToByte | src/BFVlib/PMTKParser.java:115 | the `(byte)` cast agrees with its argument modulo 256 |
| Locus.Unsigned | src/BFVlib/PMTKParser.java:57 | a byte read as unsigned is below 256 and casts back to the byte |
| Locus.DecodeHex | src/BFVlib/PMTKParser.java:110-119 | an even-length text decodes to half as many bytes |
| Locus.DecodeHexAt | src/BFVlib/PMTKParser.java:114-117 | byte k comes from characters 2k and 2k+1 |
| Locus.CheckedDecodeAlwaysThrows | src/BFVlib/PMTKParser.java:110-119 | run with assertions enabled, the decoder as written throws on every text: the assertion rejects each even length and the loop reads past the end of each odd one |
| Locus.EvenLoopDecodes | src/BFVlib/PMTKParser.java:113-118 | without that assertion, the loop decodes every even-length text into its bytes |
| Locus.HexStringToByteArray | src/BFVlib/PMTKParser.java:110-119 | the array the loop fills is the decoded hex |
| Locus.EncodeHex | src/BFVlib/PMTKParser.java:110-119 | the reference encoder writes two hex digits per byte |
| Locus.HexByteOfDigits | src/BFVlib/PMTKParser.java:115-116 | the two digits written for a byte decode to that byte |
| Locus.HexRoundTrip | src/BFVlib/PMTKParser.java:110-119 | decoding encoded bytes gives the bytes back |
| Locus.DecodeRecord | src/BFVlib/PMTKParser.java:52-83 | the fix is byte 4 and the height lies in [0, 65535] |
| Locus.LittleEndian | src/BFVlib/PMTKParser.java:52-57 | the reference encoding of an `int` is four bytes |
| Locus.LittleEndianRoundTrip | src/BFVlib/PMTKParser.java:52-57 | reading an `int`'s little-endian bytes gives the `int` |
| Locus.EncodeRecord | src/BFVlib/PMTKParser.java:52-83 | a record's encoding is 15 bytes |
| Locus.RecordRoundTrip | src/BFVlib/PMTKParser.java:52-83 | decoding a record's encoding, followed by any bytes, gives the record |
| Locus.GroupEffect | src/BFVlib/PMTKParser.java:50-92 | a group fails exactly when it cannot be decoded or the writers were never opened |
| Locus.DecodeGroup | src/BFVlib/PMTKParser.java:50-92 | the loop body writes what the group's effect says |
| Locus.DecodeRecords | src/BFVlib/PMTKParser.java:42-95 | the mode-1 loop decodes the complete groups of four fields from the fourth on, in order, stopping at the first exception |
| Locus.Parse | src/BFVlib/PMTKParser.java:25-104 | the parser's effect on the output files is the one `Feed` describes |
| Locus.SilentSink | src/BFVlib/PMTKParser.java:85-92 | writers that are not open write nothing |
| Locus.MissingSinkFails | src/BFVlib/PMTKParser.java:92 | writers never opened make the first decodable group fail |
| Locus.Records | src/BFVlib/PMTKParser.java:50-83 | one record per decodable group |
| Locus.FixTwo | src/BFVlib/PMTKParser.java:85-90 | exactly the records with fix 2 are kept |
| Locus.FixTwoStep | src/BFVlib/PMTKParser.java:85-90 | one more record adds a row at the end exactly when its fix is 2, so rows keep the records' order |
| Locus.Repeat | src/BFVlib/PMTKParser.java:92 | the raw line once per record |
| Locus.OpenSinkWrites | src/BFVlib/PMTKParser.java:42-95 | with open writers: one raw line per group and one row per record with fix 2 |
| Locus.FreshParserOnlyTruncates | src/BFVlib/PMTKParser.java:25-104 | a parser built for one line and dropped never adds to the files: it leaves them alone or, on mode 0, empties them |
| Locus.FreshParserFails | src/BFVlib/PMTKParser.java:25-104 | a parser built for one line throws on mode 2 and on a mode-1 line whose first record decodes |
| Locus.ParseFresh | src/main/java/BFVLib/BFV.java:339-341 | `new PMTKParser(line)` and the dropped object leave the files as `FreshParser` says |
| Locus.OpenSessionRecords | src/BFVlib/PMTKParser.java:42-95 | with open writers, a mode-1 line appends one raw line per group and the fix-2 records |
| Locus.SessionLifecycle | src/BFVlib/PMTKParser.java:30-102 | mode 0 starts both files afresh; mode 2 appends the line and closes them |
| Locus.ClosedSessionIgnores | src/BFVlib/PMTKParser.java:97-102 | closed files change only when mode 0 opens them again |
| Locus.OtherLinesIgnored | src/BFVlib/PMTKParser.java:26-29 | a line that is not `$PMTKLOX` changes nothing |
| DeviceLines.HwVersionParts | src/main/java/BFVLib/BFV.java:602-611 | the version reads back as its parts: token 1 up to the dot, token 2 after it |
| DeviceLines.DivideBy | src/main/java/BFVLib/BFV.java:621 | dividing by a positive whole number keeps a value finite exactly when it was |
| DeviceLines.TemperatureOfDigits | src/main/java/BFVLib/BFV.java:619-622 | a TMP token of digits reads as a tenth of its value |
| DeviceLines.TemperatureOfDouble | src/main/java/BFVLib/BFV.java:619-622 | the temperature is the parsed `double` divided by ten |
| DeviceLines.TemperatureOfFinite | src/main/java/BFVLib/BFV.java:619-622 | a finite parsed value reads as a tenth of itself |
| DeviceLines.BatteryOfHex | src/main/java/BFVLib/BFV.java:630-633 | millivolts in hex read back in volts; the hex of a negative `int` is rejected |
| DeviceLines.Measure | src/main/java/BFVLib/BFV.java:655-692 | a PRS, BFV, TMP or BAT line touches only its own reading and flag; only TMP, BAT and PRS can throw, and only on a number |
| DeviceLines.AltitudeOnChange | src/main/java/BFVLib/BFV.java:686-692 | PRS replaces the altitude and raises the flag exactly when the new altitude differs (NaN always differs); otherwise nothing changes |
| DeviceLines.FlagBeforeParse | src/main/java/BFVLib/BFV.java:665-678 | TMP and BAT raise their flag whether or not the token parses; a parsed token becomes the stored temperature or battery and the line completes; a rejected token keeps the old value |
| DeviceLines.VersionStored | src/main/java/BFVLib/BFV.java:602-611 | a BFV line stores its version, the two tokens after the code joined by a dot or the single one, raises the version flag and completes |
| DeviceLines.PmtkLineNoCode | src/main/java/BFVLib/BFV.java:339-348 | a `$PMTK` line's first token is none of the dispatched codes |
| DeviceLines.CodedLineNotPmtk | src/main/java/BFVLib/BFV.java:339-348 | a line dispatched on a code never reaches the PMTK parser |
| DeviceLines.ParseValues | src/main/java/BFVLib/BFV.java:379 | values are produced exactly when every token is a decimal `int`, one value per token |
| DeviceLines.ValuesRoundTrip | src/main/java/BFVLib/BFV.java:379 | values written in decimal parse back to the same values |
| DeviceLines.Sweep | src/main/java/BFVLib/BFV.java:566-574 | the sweep keeps the set of parameters |
| DeviceLines.SweepCompletes | src/main/java/BFVLib/BFV.java:569-571 | the sweep completes exactly when every code is known |
| DeviceLines.SweepSets | src/main/java/BFVLib/BFV.java:569-571 | with known, distinct codes, the parameter of code i gets value i and all others keep theirs |
| DeviceLines.Reconcile | src/main/java/BFVLib/BFV.java:569-571 | the loop's parameters and completion are the sweep's |
| DeviceLines.AllSetTo | src/main/java/BFVLib/BFV.java:580-584 | every named parameter has the given user value |
| DeviceLines.BuildCodeIndex | src/main/java/BFVLib/BFV.java:308-310 | the constructor's loop builds the registry's code index |
| DeviceLines.IndexNamesKnown | src/main/java/BFVLib/BFV.java:308-310 | every name the index yields is a parameter |
| Telemetry.Start | src/main/java/BFVLib/BFV.java:47-311 | a new decoder reads NaN altitude, temperature and battery and version "", has the standard QNH, no flags, no codes or values, and no parameter with a user value |
| Telemetry.UpdateAll | src/main/java/BFVLib/BFV.java:566-574 | only parameter values and `updatedValues` change; the flag is raised only by a sweep that completes; a throw is an unknown code, with the flag left alone |
| Telemetry.Dispatch | src/main/java/BFVLib/BFV.java:346-413 | dispatching keeps the parameter set, the QNH and the PMTK files |
| Telemetry.Step | src/main/java/BFVLib/BFV.java:337-414 | a line keeps the parameter set and the QNH |
| Telemetry.Reset | src/main/java/BFVLib/BFV.java:430-440 | a reset keeps the parameter set |
| Telemetry.PlainLineKeepsLog | src/main/java/BFVLib/BFV.java:339-341 | a non-PMTK line leaves the PMTK files alone |
| Telemetry.ShortLineIgnored | src/main/java/BFVLib/BFV.java:346-347 | a non-PMTK line of fewer than two tokens changes nothing |
| Telemetry.UnknownCodeIgnored | src/main/java/BFVLib/BFV.java:348-413 | a non-PMTK line whose code is none of PRS, BFV, TMP, BAT, BST and SET changes nothing |
| Telemetry.PmtkLineOnlyLogs | src/main/java/BFVLib/BFV.java:339-341 | a PMTK line goes to a parser built for it alone; it changes only the PMTK files and ends in that parser's exception, if any |
| Telemetry.PmtkEndThrows | src/main/java/BFVLib/BFV.java:339-341 | every mode-2 `$PMTKLOX` line throws, even after a mode-0 line |
| Telemetry.PmtkFilesStayEmpty | src/main/java/BFVLib/BFV.java:339-341 | the PMTK files of a new decoder stay empty, whatever lines follow |
| Telemetry.MeasurementOnlyReads | src/main/java/BFVLib/BFV.java:349-360 | a PRS, BFV, TMP or BAT line changes the readings and nothing else |
| Telemetry.BstStoresKeys | src/main/java/BFVLib/BFV.java:367-369 | BST replaces the codes with the tokens after it, marks them present and changes nothing else |
| Telemetry.SetBeforeKeysIgnored | src/main/java/BFVLib/BFV.java:370-381 | SET before any BST changes nothing |
| Telemetry.SetBadNumberChangesNothing | src/main/java/BFVLib/BFV.java:379 | a SET value that is not a decimal `int` throws with nothing changed |
| Telemetry.SetCountMismatch | src/main/java/BFVLib/BFV.java:554-574 | SET values not matching the codes in number are kept, but no parameter and no flag changes |
| Telemetry.SetUnknownCodeThrows | src/main/java/BFVLib/BFV.java:566-574 | SET with an unknown code throws and leaves `updatedValues` as it was |
| Telemetry.SetAppliesValues | src/main/java/BFVLib/BFV.java:566-574 | SET answering known, distinct codes gives parameter i value i (a negative one is refused), leaves the others alone and raises `updatedValues` |
| Telemetry.ResetClears | src/main/java/BFVLib/BFV.java:430-440 | every parameter reads -1, both buffers of codes and values are empty, readings are NaN and the version is ""; all five flags, the QNH and the PMTK files are kept |
| Telemetry.ResetIdempotent | src/main/java/BFVLib/BFV.java:430-440 | resetting twice is resetting once |
| Telemetry.SetAfterResetIgnored | src/main/java/BFVLib/BFV.java:430-440 | after a reset, SET is ignored until the next BST |
| Telemetry.Decoder.constructor | src/main/java/BFVLib/BFV.java:47-311 | the new object is in the start state, with the registry's code index |
| Telemetry.Decoder.ParseLine | src/main/java/BFVLib/BFV.java:337-414 | `parseLine` moves the object exactly as `Step` says and ends as `Step` says |
| Telemetry.Decoder.DispatchLine | src/main/java/BFVLib/BFV.java:346-413 | the switch moves the object exactly as `Dispatch` says |
| Telemetry.Decoder.SetAltitudeFromDevice | src/main/java/BFVLib/BFV.java:686-692 | PRS moves the readings as `Measure` says |
| Telemetry.Decoder.SetHardwareVersion | src/main/java/BFVLib/BFV.java:655-658 | BFV moves the readings as `Measure` says |
| Telemetry.Decoder.SetTemperature | src/main/java/BFVLib/BFV.java:665-668 | TMP moves the readings as `Measure` says |
| Telemetry.Decoder.SetBattery | src/main/java/BFVLib/BFV.java:675-678 | BAT moves the readings as `Measure` says |
| Telemetry.Decoder.UpdateParameterKeys | src/main/java/BFVLib/BFV.java:543-546 | the codes are replaced and marked present; nothing else changes |
| Telemetry.Decoder.UpdateValues | src/main/java/BFVLib/BFV.java:554-558 | the values are kept and handed over as `UpdateAll` says |
| Telemetry.Decoder.UpdateAllValues | src/main/java/BFVLib/BFV.java:566-574 | the loop moves the object as `UpdateAll` says |
| Telemetry.Decoder.SetQnh | src/main/java/BFVLib/BFV.java:422-424 | only the QNH changes |
| Telemetry.Decoder.ResetAllValues | src/main/java/BFVLib/BFV.java:430-440 | the object moves as `Reset` says |
| Telemetry.Decoder.ResetAllParameterValues | src/main/java/BFVLib/BFV.java:580-584 | every parameter's user value is reset |
| Telemetry.Decoder.GetHwVersion | src/main/java/BFVLib/BFV.java:449-452 | returns the version and lowers only its flag |
| Telemetry.Decoder.GetAltitude | src/main/java/BFVLib/BFV.java:461-464 | returns the altitude and lowers only its flag |
| Telemetry.Decoder.GetTemperature | src/main/java/BFVLib/BFV.java:473-476 | returns the temperature and lowers only its flag |
| Telemetry.Decoder.GetBattery | src/main/java/BFVLib/BFV.java:485-488 | returns the battery voltage and lowers only its flag |
| Telemetry.Decoder.IsUpdated | src/main/java/BFVLib/BFV.java:495-524 | reads the four reading flags and changes nothing |
| Telemetry.Decoder.CheckUpdatedValues | src/main/java/BFVLib/BFV.java:532-536 | returns `updatedValues` and lowers it, so an immediate second call gives false |
| LegacyTelemetry.Start | src/BFVlib/BFV.java:44-49 | a new decoder reads NaN altitude, temperature and battery, shows version "n/a", has the standard QNH, no values array, no flags and no parameter with a user value |
| LegacyTelemetry.UpdateAllUser | src/BFVlib/BFV.java:288-295 | only parameter values change; a throw is an unknown code |
| LegacyTelemetry.StoreValues | src/BFVlib/BFV.java:279-286 | values equal to the stored array change nothing; others are stored; the "parameters changed" flag is raised only by a hand-over that does not throw |
| LegacyTelemetry.Dispatch | src/BFVlib/BFV.java:358-419 | dispatching keeps the parameter set, the QNH and the PMTK files |
| LegacyTelemetry.Step | src/BFVlib/BFV.java:349-420 | a line keeps the parameter set and the QNH |
| LegacyTelemetry.Reset | src/BFVlib/BFV.java:449-459 | a reset keeps the parameter set |
| LegacyTelemetry.ShortLineIgnored | src/BFVlib/BFV.java:358-359 | a non-PMTK line of fewer than two tokens changes nothing |
| LegacyTelemetry.UnknownCodeIgnored | src/BFVlib/BFV.java:360-419 | a non-PMTK line whose code is none of PRS, BFV, TMP, BAT, BST and SET changes nothing |
| LegacyTelemetry.PmtkLineOnlyLogs | src/BFVlib/BFV.java:351-353 | a PMTK line goes to a parser built for it alone; it changes only the PMTK files and ends in that parser's exception, if any |
| LegacyTelemetry.PmtkEndThrows | src/BFVlib/BFV.java:351-353 | every mode-2 `$PMTKLOX` line throws, even after a mode-0 line |
| LegacyTelemetry.PmtkFilesStayEmpty | src/BFVlib/BFV.java:351-353 | the PMTK files of a new decoder stay empty, whatever lines follow |
| LegacyTelemetry.MeasurementOnlyReads | src/BFVlib/BFV.java:360-372 | a PRS, BFV, TMP or BAT line changes the readings and nothing else |
| LegacyTelemetry.BstStoresKeys | src/BFVlib/BFV.java:379-381 | BST replaces the codes and changes nothing else |
| LegacyTelemetry.SetBeforeKeysIgnored | src/BFVlib/BFV.java:382-393 | SET before any BST changes nothing |
| LegacyTelemetry.SetBadNumberChangesNothing | src/BFVlib/BFV.java:391 | a SET value that is not a decimal `int` throws with nothing changed |
| LegacyTelemetry.RepeatedValuesIgnored | src/BFVlib/BFV.java:279-286 | SET repeating the stored values changes nothing, not even the flag |
| LegacyTelemetry.SetCountMismatchFlagged | src/BFVlib/BFV.java:279-295 | new SET values not matching the codes in number are stored, set no parameter, and still raise the "parameters changed" flag |
| LegacyTelemetry.SetUnknownCodeThrows | src/BFVlib/BFV.java:288-295 | new SET values with an unknown code are stored but throw before the flag is raised |
| LegacyTelemetry.UnknownCodeRetryIgnored | src/BFVlib/BFV.java:279-295 | after that throw, the same SET line again is ignored, so the flag is never raised for those values |
| LegacyTelemetry.SetAppliesValues | src/BFVlib/BFV.java:288-295 | new SET values answering known, distinct codes go through `setUserValue` (a negative one is refused), the others stay, and the flag is raised |
| LegacyTelemetry.ResetClears | src/BFVlib/BFV.java:449-459 | every parameter reads -1, the codes and the values array are empty, readings are NaN and the version is "n/a"; all five flags, the QNH and the PMTK files are kept |
| LegacyTelemetry.EmptySetAfterResetIgnored | src/BFVlib/BFV.java:279-286 | after a reset and a BST line, a SET line with no values equals the empty stored array and is ignored |
| LegacyTelemetry.Decoder.constructor | src/BFVlib/BFV.java:44-272 | the new object is in the start state, with the registry's code index |
| LegacyTelemetry.Decoder.ParseRawDataFromDevice | src/BFVlib/BFV.java:349-420 | `parseRawDataFromDevice` moves the object exactly as `Step` says |
| LegacyTelemetry.Decoder.DispatchLine | src/BFVlib/BFV.java:358-419 | the switch moves the object exactly as `Dispatch` says |
| LegacyTelemetry.Decoder.SetAltitudeFromDevice | src/BFVlib/BFV.java:437-443 | PRS moves the readings as `Measure` says |
| LegacyTelemetry.Decoder.SetHardwareVersionFromDevice | src/BFVlib/BFV.java:432-435 | BFV moves the readings as `Measure` says |
| LegacyTelemetry.Decoder.SetTemperatureFromDevice | src/BFVlib/BFV.java:427-430 | TMP moves the readings as `Measure` says |
| LegacyTelemetry.Decoder.SetBatteryFromDevice | src/BFVlib/BFV.java:422-425 | BAT moves the readings as `Measure` says |
| LegacyTelemetry.Decoder.UpdateParameterKeysFromDevice | src/BFVlib/BFV.java:274-277 | the codes are replaced and marked present; nothing else changes |
| LegacyTelemetry.Decoder.UpdateParameterValuesFromDevice | src/BFVlib/BFV.java:279-286 | the object moves as `StoreValues` says |
| LegacyTelemetry.Decoder.UpdateAllUserValues | src/BFVlib/BFV.java:288-295 | the loop moves the object as `UpdateAllUser` says |
| LegacyTelemetry.Decoder.SetQnh | src/BFVlib/BFV.java:445-447 | only the QNH changes |
| LegacyTelemetry.Decoder.ResetAllValuesFromDevice | src/BFVlib/BFV.java:449-459 | the object moves as `Reset` says |
| LegacyTelemetry.Decoder.ResetAllUserValues | src/BFVlib/BFV.java:297-301 | every parameter's user value is reset |
| LegacyTelemetry.Decoder.GetHwVersion | src/BFVlib/BFV.java:461-464 | returns the version and lowers only its flag |
| LegacyTelemetry.Decoder.GetRawAltitude | src/BFVlib/BFV.java:466-469 | returns the altitude and lowers only its flag |
| LegacyTelemetry.Decoder.GetTemperature | src/BFVlib/BFV.java:471-474 | returns the temperature and lowers only its flag |
| LegacyTelemetry.Decoder.GetBattery | src/BFVlib/BFV.java:476-479 | returns the battery voltage and lowers only its flag |
| LegacyTelemetry.Decoder.IsChanged | src/BFVlib/BFV.java:481-499 | reads the five flags and changes nothing |
| LegacyTelemetry.Decoder.ReadParametersFromDevice | src/BFVlib/BFV.java:501-503 | lowers only the "parameters changed" flag |

## Left out

- **Floating point.** A `double` is held as an exact real: rounding to 53 bits,
  hexadecimal floating-point literals and `String.valueOf(double)` are not modelled.
  - The altitude formula `44330 * (1 - (p / qnh)^0.190295)` is a function value given
    to the decoder's constructor.
  - `convertValueToString` of a Double parameter is kept as the quotient it renders.
- **Whole-number conversion.** `convertValueToInt` takes integer input and an integer
  factor. Every factor in the tables is a whole number.
- Command.Command.ConvertValueToInt: does not model `Double.parseDouble` of the entered
  text or a fractional entry, because only whole entries are modelled.
- JavaText.ParseDouble: hexadecimal floating-point literals and rounding to 53 bits are not
  modelled. The value is proved only for plain digits, digits with a point, digits with an
  exponent, and the NaN and Infinity spellings. Other shapes the function accepts, such as a
  point and an exponent together or a type suffix, have no lemma.
- JavaText.DigitValue: only ASCII digits and letters are digits here. `Character.digit` also
  accepts other Unicode digits and the fullwidth Latin letters, which the model maps to -1.
  The same holds for `Integer.parseInt` and the PMTK hex decoding built on it.
- Command.DoubleRoundTrip: holds only for values that are whole multiples of the factor.
  Entries are whole numbers in this model, so a fractional entry such as 0.2 for a
  liftThreshold of 20 with factor 100 cannot be entered.
- **PMTK output formats.** The CSV row keeps the record, not its text. Latitude and
  longitude are kept as their 32 raw bits, not reinterpreted as IEEE-754 floats, and
  the `SimpleDateFormat` date is not produced.
- **File I/O.** The two output files are the sequences of lines and records written to
  them. An `IOException` on opening is not modelled: opening always succeeds.
- **Demo and metadata.** The `main` demo methods are left out, and so are the `TreeMap`
  order in which parameters are enumerated, descriptions and `minHWVersion`.
  `getAllCommands` and `getAllParameters` are left out.
- **Main-tree `Command`.** The `Command` class of `src/main/java` is not part of this
  model. The `setFromParsed`, `resetValue` and `getValue` it offers are modelled as
  `UserValue.Set`, `Unset` and `UserValue.Value`, like the older `setUserValue` and
  `resetUserValue`.
- **Parameter objects.** Each decoder holds the parameters' user values in a map from
  name to `UserValue`, not as `Command` objects in a `TreeMap`. The sharing of those
  objects with callers of `getAllParameters` is not captured.
- **Null arrays.** `parameterKeys` and `userValues` start out null in Java. They are `[]`
  here, which is never read while the matching "has" flag is false. In the older
  decoder the stored values array is an `Option`, because `Arrays.equals` compares it
  even while it is null.
- **`setQnh(null)`.** Unboxing `null` throws in Java. The model takes a `double` value.
- **Negative temperatures.** A negative TMP token is covered only by
  `JavaText.ParseDoubleNegatedDigits`, with no decoder-level lemma.
- **Re-splitting.** The Java setters receive the raw line and split it again inside
  `get*FromLine` / `get*FromRawData`. The model's setters receive the tokens of the one
  split `parseLine` makes, which are the same tokens.

## Findings

| source | as written | input that shows it | evidently intended | confidence | as-written member | corrected member |
|---|---|---|---|---|---|---|
| src/BFVlib/PMTKParser.java:25-104 | the output writers are fields of the parser, and both decoders build a new parser for every `$PMTK` line (src/main/java/BFVLib/BFV.java:340) | `$PMTKLOX,0*..` then `$PMTKLOX,2*..`: the second line's parser has no writers and throws; a mode-1 line with a record throws the same way | writers opened by mode 0 stay open across lines until mode 2 closes them | not executed | Telemetry.PmtkEndThrows | Locus.OpenSessionRecords |
| src/BFVlib/PMTKParser.java:112 | `assert len % 2 == 1` | any even-length hex text, such as `"00"`: the assertion fails, although the loop reads two characters at a time and needs an even length; run with assertions enabled, every text throws | the assertion should require an even length | not executed | Locus.CheckedDecodeAlwaysThrows | Locus.EvenLoopDecodes |

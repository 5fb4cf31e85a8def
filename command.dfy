/**
 * One device command of the BlueFlyVario protocol: its definition (set up by the
 * builder), the user value and user arguments a caller attaches to it, the PMTK
 * checksum, the conversions between user values and the integers the instrument
 * stores, and the serialisation of the command to its wire form.
 */
module Command {
  import opened Wrappers
  import opened JavaText

  /** The parameter type tags TYPE_INT (0), TYPE_DOUBLE (1), TYPE_INTOFFSET (2), TYPE_BOOLEAN (4), TYPE_INTLIST (5). */
  datatype ParameterType = Int | Double | IntOffset | Boolean | IntList

  /** The user value a command carries: the `hasUserValue` flag and the `userValue` field. */
  datatype UserValue = UserValue(hasUserValue: bool, userValue: Int32) {

    /** `setUserValue`: only a non-negative value is accepted; a rejected one changes nothing. */
    function Set(v: Int32): (r: UserValue)
      ensures v >= 0 ==> r.hasUserValue && r.Value() == v
      ensures v < 0 ==> r == this
    {
      if v >= 0 then UserValue(true, v) else this
    }

    /** `getValue`: the stored value, or -1 when none is set. */
    function Value(): Int32 {
      if hasUserValue then userValue else -1
    }
  }

  /** The user value of a freshly built command (Java field defaults). */
  const Initial: UserValue := UserValue(false, 0)

  /** The user value after `resetUserValue`. */
  const Unset: UserValue := UserValue(false, -1)

  // ---------------------------------------------------------------------------
  // PMTK checksum

  /** The XOR of the character codes of `s`. */
  function XorAll(s: string): (x: bv32)
    ensures x < 0x20_0000
  {
    if s == [] then 0 else XorAll(s[..|s| - 1]) ^ (s[|s| - 1] as int as bv32)
  }

  /**
   * What `pmtkChecksum` computes: -1 when a '!' or '$' occurs before the first '*',
   * otherwise the XOR of every character before the first '*' (of the whole
   * string when there is none).
   */
  function Checksum(s: string): (r: Int32)
    ensures r >= -1
  {
    var body := TakeUntil(s, '*');
    if '!' in body || '$' in body then -1 else XorAll(body) as int
  }

  /** A prefix of `s` free of `c` and followed by `c` (or the end) is exactly TakeUntil(s, c). */
  lemma TakeUntilAt(s: string, c: char, i: nat)
    requires i <= |s| && c !in s[..i]
    ensures i < |s| && s[i] != c ==> |TakeUntil(s, c)| > i && TakeUntil(s, c)[i] == s[i]
    ensures (i == |s| || s[i] == c) ==> TakeUntil(s, c) == s[..i]
  {
    var r := TakeUntil(s, c);
    forall j | 0 <= j < i
      ensures s[j] != c
    {
      assert s[..i][j] == s[j];
    }
    if |r| == i {
      assert r == s[..i];
    }
  }

  /** Appending one character XORs its code into the checksum. */
  lemma XorAllSnoc(p: string, c: char)
    ensures XorAll(p + [c]) == XorAll(p) ^ (c as int as bv32)
  {
    assert (p + [c])[..|p|] == p;
  }

  /** `pmtkChecksum`: a single pass with an XOR accumulator and an early return. */
  method PmtkChecksum(s: string) returns (checksum: Int32)
    ensures checksum == Checksum(s)
  {
    var acc: bv32 := 0;
    var i := 0;
    while i < |s|
      invariant 0 <= i <= |s|
      invariant '*' !in s[..i] && '!' !in s[..i] && '$' !in s[..i]
      invariant acc == XorAll(s[..i])
    {
      var c := s[i];
      if c == '!' || c == '$' {
        TakeUntilAt(s, '*', i);
        assert TakeUntil(s, '*')[i] == c;
        return -1;
      }
      if c == '*' {
        break;
      }
      assert s[..i + 1] == s[..i] + [c];
      XorAllSnoc(s[..i], c);
      acc := acc ^ (c as int as bv32);
      i := i + 1;
    }
    TakeUntilAt(s, '*', i);
    checksum := acc as int;
  }

  // ---------------------------------------------------------------------------
  // Wire format

  /** What follows the code in a non-PMTK frame: argument text, a stored value, or nothing. */
  datatype Payload = Arguments(text: string) | StoredValue(value: Int32) | NoPayload

  /** The frame of a PMTK code: "$", the code, "*", the upper-case hex checksum and CR LF. */
  function PmtkFrame(code: string): string {
    "$" + code + "*" + UpperHexString(Checksum(code)) + "\r\n"
  }

  /** The text a payload adds after the code: a space and the argument text or the decimal value. */
  function PayloadText(p: Payload): string {
    match p
    case Arguments(text) => " " + text
    case StoredValue(v) => " " + DecimalString(v)
    case NoPayload => ""
  }

  /**
   * `getCompiledCommand()` once the payload has been chosen: a PMTK code gets its
   * checksummed frame whatever the payload; any other code is framed by "$" and "*".
   */
  function Compile(code: string, p: Payload): string {
    if StartsWith(code, "PMTK") then PmtkFrame(code) else "$" + code + PayloadText(p) + "*"
  }

  /**
   * The payload `getCompiledCommand()` picks: the arguments when the command takes
   * arguments (the user's when set, the default otherwise); else the user value when
   * the command is a parameter with a user value; else nothing.
   */
  function ChoosePayload(hasArguments: bool, arguments: string, hasParameters: bool, user: UserValue): (p: Payload)
    ensures hasArguments <==> p.Arguments?
    ensures p.StoredValue? <==> !hasArguments && hasParameters && user.hasUserValue
    ensures p.Arguments? ==> p.text == arguments
    ensures p.StoredValue? ==> p.value == user.userValue
  {
    if hasArguments then Arguments(arguments)
    else if hasParameters && user.hasUserValue then StoredValue(user.userValue)
    else NoPayload
  }

  /** The definition a builder gives a command (everything but the code, the description and the user state). */
  datatype Definition = Definition(
    hasArguments: bool, defaultArguments: string,
    hasParameters: bool, kind: ParameterType, minHWVersion: int, minVal: Int32, maxVal: Int32, factor: int,
    hasDefaultValue: bool, defaultValue: Int32)

  /** The definition of a command straight out of `Builder(command, description)`. */
  const Blank: Definition := Definition(false, "", false, Int, 0, 0, 0, 0, false, 0)

  /**
   * How what `display` shows is held: text, Java's null, or a `double` quotient whose
   * decimal rendering by `String.valueOf(double)` is not modelled.
   */
  datatype Shown = Text(text: string) | Quotient(dividend: int, divisor: int) | Null

  /** How far apart two whole numbers are. */
  function Distance(a: int, b: int): nat {
    if a < b then b - a else a - b
  }

  /** `(int)` of a `double` holding an integer: Java narrows to the `int` nearest to it. */
  function SaturatingInt32(x: int): (r: Int32)
    ensures forall y: Int32 :: Distance(r, x) <= Distance(y, x)
  {
    if x < -0x8000_0000 then -0x8000_0000 else if x >= 0x8000_0000 then 0x7FFF_FFFF else x
  }

  /**
   * One command or parameter. The code, the description and `isPmtk` are fixed by the
   * builder; the builder setters fill in the definition; the user value and the user
   * arguments change at run time.
   */
  class Command {
    const command: string
    const description: string
    const isPmtk: bool

    var hasUserValue: bool
    var userValue: Int32

    var hasArguments: bool
    var defaultArguments: string

    var hasUserArguments: bool
    var userArguments: string

    var hasDefaultValue: bool
    var defaultValue: Int32

    var hasParameters: bool
    var kind: ParameterType
    var minHWVersion: int
    var minVal: Int32
    var maxVal: Int32
    var factor: int

    /** The builder's assertions, kept by every later operation. */
    ghost predicate Valid()
      reads this
    {
      && command != "" && description != ""
      && isPmtk == StartsWith(command, "PMTK")
      && 0 <= minVal && maxVal <= 65535
      && (hasDefaultValue ==> minVal <= defaultValue <= maxVal)
      && (hasUserValue ==> userValue >= 0)
    }

    function Def(): Definition
      reads this
    {
      Definition(hasArguments, defaultArguments, hasParameters, kind, minHWVersion, minVal, maxVal, factor,
                 hasDefaultValue, defaultValue)
    }

    function User(): UserValue
      reads this
    {
      UserValue(hasUserValue, userValue)
    }

    /** `Builder(command, description)`: the code and the description must be non-empty. */
    constructor (command: string, description: string)
      requires command != "" && description != ""
      ensures Valid()
      ensures this.command == command && this.description == description
      ensures isPmtk <==> StartsWith(command, "PMTK")
      ensures Def() == Blank && User() == Initial && !hasUserArguments
    {
      this.command := command;
      this.description := description;
      isPmtk := StartsWith(command, "PMTK");
      hasUserValue := false;
      userValue := 0;
      hasArguments := false;
      defaultArguments := "";
      hasUserArguments := false;
      userArguments := "";
      hasDefaultValue := false;
      defaultValue := 0;
      hasParameters := false;
      kind := Int;
      minHWVersion := 0;
      minVal := 0;
      maxVal := 0;
      factor := 0;
    }

    /** `Builder.setDefaultArguments`: the command now takes arguments. */
    method SetDefaultArguments(val: string)
      requires Valid()
      modifies this
      ensures Valid()
      ensures Def() == old(Def()).(hasArguments := true, defaultArguments := val)
      ensures User() == old(User())
      ensures hasUserArguments == old(hasUserArguments) && userArguments == old(userArguments)
    {
      defaultArguments := val;
      hasArguments := true;
    }

    /**
     * `Builder.setParameters`: the command becomes a parameter. The builder asserts
     * `minVal >= 0` and `maxVal <= 65535`; the type tag is one of the five types.
     */
    method SetParameters(kind: ParameterType, minHWVersion: int, minVal: Int32, maxVal: Int32, factor: int)
      requires Valid()
      requires minVal >= 0 && maxVal <= 65535
      requires hasDefaultValue ==> minVal <= defaultValue <= maxVal
      modifies this
      ensures Valid()
      ensures Def() == old(Def()).(hasParameters := true, kind := kind, minHWVersion := minHWVersion,
                                   minVal := minVal, maxVal := maxVal, factor := factor)
      ensures User() == old(User())
      ensures hasUserArguments == old(hasUserArguments) && userArguments == old(userArguments)
    {
      this.kind := kind;
      this.minHWVersion := minHWVersion;
      this.minVal := minVal;
      this.maxVal := maxVal;
      this.factor := factor;
      hasParameters := true;
    }

    /** `Builder.setDefaultValue`: the builder asserts the default lies within the range. */
    method SetDefaultValue(value: Int32)
      requires Valid()
      requires minVal <= value <= maxVal
      modifies this
      ensures Valid()
      ensures Def() == old(Def()).(hasDefaultValue := true, defaultValue := value)
      ensures User() == old(User())
      ensures hasUserArguments == old(hasUserArguments) && userArguments == old(userArguments)
    {
      defaultValue := value;
      hasDefaultValue := true;
    }

    /** `getCompiledCommand()`: the wire frame of the command in its current state. */
    function CompiledCommand(): string
      reads this
    {
      Compile(command, ChoosePayload(hasArguments, if hasUserArguments then userArguments else defaultArguments,
                                     hasParameters, User()))
    }

    /** `getCompiledCommand(arguments)`: stores the arguments for good, then compiles. */
    method CompileWith(arguments: string) returns (frame: string)
      requires Valid()
      modifies this
      ensures Valid()
      ensures hasUserArguments && userArguments == arguments
      ensures Def() == old(Def()) && User() == old(User())
      ensures frame == CompiledCommand()
    {
      userArguments := arguments;
      hasUserArguments := true;
      frame := CompiledCommand();
    }

    /** `setUserValue`: accepted, and reported as such, exactly when the value is non-negative. */
    method SetUserValue(value: Int32) returns (ok: bool)
      requires Valid()
      modifies this
      ensures Valid()
      ensures ok <==> value >= 0
      ensures User() == old(User()).Set(value)
      ensures Def() == old(Def())
      ensures hasUserArguments == old(hasUserArguments) && userArguments == old(userArguments)
    {
      if value >= 0 {
        userValue := value;
        hasUserValue := true;
        return true;
      } else {
        return false;
      }
    }

    /** `resetUserValue`: back to "unset", the stored value becoming -1. */
    method ResetUserValue()
      requires Valid()
      modifies this
      ensures Valid()
      ensures User() == Unset
      ensures Def() == old(Def())
      ensures hasUserArguments == old(hasUserArguments) && userArguments == old(userArguments)
    {
      userValue := -1;
      hasUserValue := false;
    }

    /**
     * `convertValueToString`: how a stored value is shown, by type. IntOffset adds the
     * factor (through a saturating `(int)` cast); Boolean shows whether it is non-zero;
     * IntList has no rendering (Java's null).
     */
    function Display(value: Int32): Shown
      reads this
    {
      match kind
      case Int => Text(DecimalString(value))
      case Double => Quotient(value, factor)
      case IntOffset => Text(DecimalString(SaturatingInt32(value + factor)))
      case Boolean => Text(if value != 0 then "true" else "false")
      case IntList => Null
    }

    /** `isInRange`: within the closed interval [minVal, maxVal]. */
    predicate IsInRange(value: int)
      reads this
    {
      minVal <= value <= maxVal
    }

    /**
     * `convertValueToInt` on an integer input: scale by the type (Int and IntList keep
     * the value, Double multiplies by the factor, IntOffset subtracts it, Boolean maps
     * to 0 or 1), then keep the result if it is in range and give -1 otherwise.
     */
    function ConvertValueToInt(value: int): (r: Int32)
      requires Valid()
      reads this
      ensures r == -1 || minVal <= r <= maxVal
      ensures r != -1 ==> r == Scaled(value)
      ensures IsInRange(Scaled(value)) ==> r == Scaled(value)
    {
      var scaled := Scaled(value);
      if IsInRange(scaled) then scaled else -1
    }

    /** The value `convertValueToInt` range-checks, before the check. */
    function Scaled(value: int): int
      reads this
    {
      match kind
      case Int => value
      case Double => value * factor
      case IntOffset => value - factor
      case Boolean => if value == 0 then 0 else 1
      case IntList => value
    }
  }

  // ---------------------------------------------------------------------------
  // Properties of the wire format

  /**
   * A PMTK frame ignores the payload, ends in CR LF, and carries between "*" and CR LF
   * the checksum's 32-bit two's-complement value in upper-case hex without leading zeros.
   */
  lemma PmtkFrameChecksum(code: string, p: Payload, q: Payload)
    requires StartsWith(code, "PMTK")
    ensures Compile(code, p) == Compile(code, q)
    ensures var frame := Compile(code, p);
      var hex := frame[|code| + 2..|frame| - 2];
      && frame == "$" + code + "*" + hex + "\r\n"
      && hex != "" && AllDigits(hex, 16)
      && Magnitude(hex, 16) == Checksum(code) % TwoTo32
      && (hex[0] == '0' <==> Checksum(code) == 0)
      && forall i :: 0 <= i < |hex| ==> UpperHexDigit(hex[i])
  {
    var hex := UpperHexString(Checksum(code));
    var frame := Compile(code, p);
    assert frame == "$" + code + "*" + hex + "\r\n";
    assert frame[|code| + 2..|frame| - 2] == hex;
    UpperHexValue(Checksum(code));
  }

  /** `getCompiledCommand()` of a PMTK command: its checksummed frame, whatever else is set. */
  lemma PmtkCommandFrame(c: Command)
    requires c.Valid() && c.isPmtk
    ensures c.CompiledCommand() == PmtkFrame(c.command)
  {
  }

  /** `getCompiledCommand()` of a command with arguments: the user's arguments take priority over the default, and the arguments over any user value. */
  lemma ArgumentsFrame(c: Command)
    requires c.Valid() && !c.isPmtk && c.hasArguments
    ensures c.CompiledCommand() ==
      "$" + c.command + " " + (if c.hasUserArguments then c.userArguments else c.defaultArguments) + "*"
  {
    var a := if c.hasUserArguments then c.userArguments else c.defaultArguments;
    assert "$" + c.command + (" " + a) == "$" + c.command + " " + a;
  }

  /** `getCompiledCommand()` of a parameter holding a user value and taking no arguments. */
  lemma ValueFrame(c: Command)
    requires c.Valid() && !c.isPmtk && !c.hasArguments && c.hasParameters && c.hasUserValue
    ensures c.CompiledCommand() == "$" + c.command + " " + DecimalString(c.userValue) + "*"
    ensures ParseInt(DecimalString(c.userValue), 10) == Some(c.userValue)
  {
    var d := DecimalString(c.userValue);
    assert "$" + c.command + (" " + d) == "$" + c.command + " " + d;
    DecimalRoundTrip(c.userValue);
  }

  /** `getCompiledCommand()` with neither arguments nor a user value: the bare code. */
  lemma BareFrame(c: Command)
    requires c.Valid() && !c.isPmtk && !c.hasArguments && !(c.hasParameters && c.hasUserValue)
    ensures c.CompiledCommand() == "$" + c.command + "*"
  {
    assert "$" + c.command + "" == "$" + c.command;
  }

  // ---------------------------------------------------------------------------
  // Properties of the value conversions

  /** For an Int parameter, the shown text of an in-range value converts back to the value. */
  lemma IntRoundTrip(c: Command, x: Int32)
    requires c.Valid() && c.kind == Int && c.IsInRange(x)
    ensures c.Display(x).Text?
    ensures ParseInt(c.Display(x).text, 10) == Some(x)
    ensures c.ConvertValueToInt(x) == x
  {
    DecimalRoundTrip(x);
  }

  /**
   * For an IntOffset parameter, the shown text (value plus factor) of an in-range value
   * converts back to the value, as long as the shown number fits in an `int`.
   */
  lemma IntOffsetRoundTrip(c: Command, x: Int32)
    requires c.Valid() && c.kind == IntOffset && c.IsInRange(x)
    requires -0x8000_0000 <= x + c.factor < 0x8000_0000
    ensures c.Display(x).Text?
    ensures ParseInt(c.Display(x).text, 10) == Some(x + c.factor)
    ensures c.ConvertValueToInt(x + c.factor) == x
  {
    DecimalRoundTrip(x + c.factor);
  }

  /**
   * For a Double parameter, an in-range value is shown as the quotient by the factor,
   * and entering that quotient (when it is whole) converts back to the value.
   */
  lemma DoubleRoundTrip(c: Command, x: Int32, q: int)
    requires c.Valid() && c.kind == Double && c.IsInRange(x)
    requires q * c.factor == x
    ensures c.Display(x) == Quotient(x, c.factor)
    ensures c.ConvertValueToInt(q) == x
  {
  }

  /**
   * For a Boolean parameter of range [0, 1], any entry converts to 0 or 1 according to
   * whether it is zero, and the converted value is shown as the matching truth value.
   */
  lemma BooleanConversion(c: Command, v: int)
    requires c.Valid() && c.kind == Boolean && c.minVal == 0 && c.maxVal == 1
    ensures c.ConvertValueToInt(v) == (if v == 0 then 0 else 1)
    ensures c.Display(c.ConvertValueToInt(v)) == Text(if v == 0 then "false" else "true")
  {
  }

  /**
   * Storing what `convertValueToInt` returns: an in-range conversion is accepted as the
   * new user value, an out-of-range one (-1) is refused and leaves the user value as it was.
   */
  lemma StoreConverted(c: Command, v: int)
    requires c.Valid()
    ensures c.IsInRange(c.Scaled(v)) ==> c.User().Set(c.ConvertValueToInt(v)) == UserValue(true, c.Scaled(v))
    ensures !c.IsInRange(c.Scaled(v)) ==> c.User().Set(c.ConvertValueToInt(v)) == c.User()
  {
  }
}

/**
 * The few pieces of the Java string and integer library the protocol code relies on:
 * `String.split` on a single character, `Integer.parseInt`, `Character.digit`,
 * decimal rendering of an `int` and `Integer.toHexString(..).toUpperCase()`.
 * Characters are ASCII in the protocol; Unicode digits that `Character.digit`
 * would also accept are not modelled.
 */
module JavaText {
  import opened Wrappers

  /** A Java `int`. */
  type Int32 = x: int | -0x8000_0000 <= x < 0x8000_0000

  const TwoTo32: int := 0x1_0000_0000

  predicate StartsWith(s: string, prefix: string) {
    |prefix| <= |s| && s[..|prefix|] == prefix
  }

  /** The longest prefix of `s` that does not contain `c`. */
  function TakeUntil(s: string, c: char): (r: string)
    ensures |r| <= |s| && r == s[..|r|]
    ensures c !in r
    ensures |r| < |s| ==> s[|r|] == c
  {
    if s == [] || s[0] == c then [] else [s[0]] + TakeUntil(s[1..], c)
  }

  /** Every field between occurrences of `c`, empty ones included. */
  function Fields(s: string, c: char): (r: seq<string>)
    ensures |r| >= 1
    ensures forall i :: 0 <= i < |r| ==> c !in r[i]
    decreases |s|
  {
    var head := TakeUntil(s, c);
    if |head| == |s| then [s] else [head] + Fields(s[|head| + 1..], c)
  }

  /** The inverse of Fields: the fields glued back together with `c`. */
  function Join(fs: seq<string>, c: char): string
    requires |fs| >= 1
  {
    if |fs| == 1 then fs[0] else fs[0] + [c] + Join(fs[1..], c)
  }

  /** The longest prefix of `fs` that does not end in an empty string. */
  function DropTrailingEmpty(fs: seq<string>): (r: seq<string>)
    ensures |r| <= |fs| && r == fs[..|r|]
    ensures r != [] ==> r[|r| - 1] != ""
    ensures forall i :: |r| <= i < |fs| ==> fs[i] == ""
  {
    if fs == [] || fs[|fs| - 1] != "" then fs else DropTrailingEmpty(fs[..|fs| - 1])
  }

  /**
   * `s.split(c)` for a single literal character: when `c` does not occur the
   * whole string is the only element (so "" gives [""]); otherwise the fields
   * between occurrences of `c`, with trailing empty fields removed.
   */
  function Split(s: string, c: char): seq<string> {
    if c !in s then [s] else DropTrailingEmpty(Fields(s, c))
  }

  /** The value of an ASCII letter or digit as a digit of the largest radix (36); -1 for anything else. */
  function AlnumValue(c: char): (v: int)
    ensures -1 <= v < 36
  {
    if '0' <= c <= '9' then c as int - '0' as int
    else if 'a' <= c <= 'z' then c as int - 'a' as int + 10
    else if 'A' <= c <= 'Z' then c as int - 'A' as int + 10
    else -1
  }

  /** `Character.digit(c, radix)` on ASCII: the digit's value, or -1 when `c` is no digit of `radix`. */
  function DigitValue(c: char, radix: nat): (d: int)
    requires 2 <= radix <= 36
    ensures -1 <= d < radix as int
    ensures d >= 0 <==> 0 <= AlnumValue(c) < radix as int
  {
    if AlnumValue(c) < radix then AlnumValue(c) else -1
  }

  predicate AllDigits(ds: string, radix: nat)
    requires 2 <= radix <= 36
  {
    forall i :: 0 <= i < |ds| ==> DigitValue(ds[i], radix) >= 0
  }

  /** The value of a string of digits, most significant first. */
  function Magnitude(ds: string, radix: nat): nat
    requires 2 <= radix <= 36
    requires AllDigits(ds, radix)
  {
    if ds == [] then 0
    else Magnitude(ds[..|ds| - 1], radix) * radix + DigitValue(ds[|ds| - 1], radix)
  }

  /**
   * `Integer.parseInt(s, radix)`: an optional sign followed by at least one digit,
   * the value within `int` range; None where Java throws NumberFormatException.
   */
  function ParseInt(s: string, radix: nat): (r: Option<Int32>)
    requires 2 <= radix <= 36
    ensures r.Some? <==> (
      && s != [] && SignFree(s) != [] && AllDigits(SignFree(s), radix)
      && -0x8000_0000 <= (if s[0] == '-' then 0 - Magnitude(SignFree(s), radix) else Magnitude(SignFree(s), radix)) < 0x8000_0000)
    ensures r.Some? ==> r.value == (if s[0] == '-' then 0 - Magnitude(SignFree(s), radix) else Magnitude(SignFree(s), radix))
  {
    if s == [] then None
    else
      var digits := SignFree(s);
      if digits == [] || !AllDigits(digits, radix) then None
      else
        var m: int := Magnitude(digits, radix);
        var v := if s[0] == '-' then -m else m;
        if -0x8000_0000 <= v < 0x8000_0000 then Some(v) else None
  }

  /** `s` without its leading sign character, if it has one. */
  function SignFree(s: string): string
    requires s != []
  {
    if s[0] == '-' || s[0] == '+' then s[1..] else s
  }

  /** A digit of `Integer.toHexString(..).toUpperCase()`: 0-9 or A-F. */
  predicate UpperHexDigit(c: char) {
    '0' <= c <= '9' || 'A' <= c <= 'F'
  }

  /** The upper-case digit character of value `d`. */
  function DigitChar(d: nat): (c: char)
    requires d < 16
    ensures AlnumValue(c) == d && UpperHexDigit(c)
  {
    "0123456789ABCDEF"[d]
  }

  /** `n` written in base `radix` without leading zeros ("0" for zero), upper-case letters. */
  function Digits(n: nat, radix: nat): (s: string)
    requires 2 <= radix <= 16
    ensures |s| >= 1
    ensures forall i :: 0 <= i < |s| ==> UpperHexDigit(s[i])
    decreases n
  {
    if n < radix then [DigitChar(n)] else Digits(n / radix, radix) + [DigitChar(n % radix)]
  }

  /** `String.valueOf(int)`: decimal, with a leading '-' for negative values. */
  function DecimalString(n: Int32): string {
    if n < 0 then "-" + Digits(-(n as int), 10) else Digits(n, 10)
  }

  /** `Integer.toHexString(n).toUpperCase()`: the two's-complement bits of `n` in hex. */
  function UpperHexString(n: Int32): string {
    Digits(n % TwoTo32, 16)
  }

  // ---------------------------------------------------------------------------
  // Doubles

  /** A Java `double`: NaN, an infinity, or a finite value held exactly (rounding to 53 bits is not modelled). */
  datatype Float = NaN | Infinite(negative: bool) | Finite(value: real)

  /** Java's `a != b` on `double`s: NaN differs from everything, itself included. */
  predicate Differs(a: Float, b: Float) {
    a.NaN? || b.NaN? || a != b
  }

  /** `String.trim`: leading and trailing characters up to U+0020 removed. */
  function Trim(s: string): (r: string)
    ensures |r| <= |s|
    ensures r != [] ==> r[0] > ' ' && r[|r| - 1] > ' '
  {
    if s != [] && s[0] <= ' ' then Trim(s[1..])
    else if s != [] && s[|s| - 1] <= ' ' then Trim(s[..|s| - 1])
    else s
  }

  /** `String.trim` cuts a slice out of `s`: everything it drops at either end is U+0020 or below. */
  lemma {:induction false} TrimSlice(s: string) returns (i: nat, j: nat)
    ensures i <= j <= |s| && Trim(s) == s[i..j]
    ensures forall k :: 0 <= k < i ==> s[k] <= ' '
    ensures forall k :: j <= k < |s| ==> s[k] <= ' '
    decreases |s|
  {
    if s != [] && s[0] <= ' ' {
      var i', j' := TrimSlice(s[1..]);
      i, j := i' + 1, j' + 1;
      SliceAfterFirst(s, s[1..], i', j');
    } else if s != [] && s[|s| - 1] <= ' ' {
      i, j := TrimSlice(s[..|s| - 1]);
      SliceBeforeLast(s, s[..|s| - 1], i, j);
    } else {
      i, j := 0, |s|;
    }
  }

  /** A slice of `s` without its first element, whose surroundings are U+0020 or below, is that slice of `s` shifted by one. */
  lemma SliceAfterFirst(s: string, t: string, i: nat, j: nat)
    requires s != [] && s[0] <= ' ' && t == s[1..] && i <= j <= |t|
    requires forall k :: 0 <= k < i ==> t[k] <= ' '
    requires forall k :: j <= k < |t| ==> t[k] <= ' '
    ensures t[i..j] == s[i + 1..j + 1]
    ensures forall k :: 0 <= k < i + 1 ==> s[k] <= ' '
    ensures forall k :: j + 1 <= k < |s| ==> s[k] <= ' '
  {
    forall k | 0 <= k < i + 1
      ensures s[k] <= ' '
    {
      if k > 0 {
        assert s[k] == t[k - 1];
      }
    }
    forall k | j + 1 <= k < |s|
      ensures s[k] <= ' '
    {
      assert s[k] == t[k - 1];
    }
  }

  /** A slice of `s` without its last element, whose surroundings are U+0020 or below, is the same slice of `s`. */
  lemma SliceBeforeLast(s: string, t: string, i: nat, j: nat)
    requires s != [] && s[|s| - 1] <= ' ' && t == s[..|s| - 1] && i <= j <= |t|
    requires forall k :: 0 <= k < i ==> t[k] <= ' '
    requires forall k :: j <= k < |t| ==> t[k] <= ' '
    ensures t[i..j] == s[i..j]
    ensures forall k :: 0 <= k < i ==> s[k] <= ' '
    ensures forall k :: j <= k < |s| ==> s[k] <= ' '
  {
    forall k | 0 <= k < i
      ensures s[k] <= ' '
    {
      assert s[k] == t[k];
    }
    forall k | j <= k < |t|
      ensures s[k] <= ' '
    {
      assert s[k] == t[k];
    }
  }

  /** Ten to the power `k`. */
  function Pow10(k: nat): (p: real)
    ensures p >= 1.0
  {
    if k == 0 then 1.0 else 10.0 * Pow10(k - 1)
  }

  /** `m` times ten to the power `e`. */
  function Scale(m: real, e: int): real {
    if e >= 0 then m * Pow10(e) else m / Pow10(-e)
  }

  /** The position of the first exponent marker ('e' or 'E'), or the length when there is none. */
  function ExponentAt(s: string): (i: nat)
    ensures i <= |s|
    ensures forall j :: 0 <= j < i ==> s[j] != 'e' && s[j] != 'E'
    ensures i < |s| ==> s[i] == 'e' || s[i] == 'E'
  {
    if s == [] || s[0] == 'e' || s[0] == 'E' then 0 else 1 + ExponentAt(s[1..])
  }

  /** The `float`/`double` type suffix a Java floating-point literal may end with. */
  predicate TypeSuffix(c: char) {
    c == 'f' || c == 'F' || c == 'd' || c == 'D'
  }

  /** A decimal exponent: an optional sign and at least one digit. */
  function ParseExponent(s: string): Option<int> {
    if s == [] then None
    else
      var digits := SignFree(s);
      if digits == [] || !AllDigits(digits, 10) then None
      else
        var m: int := Magnitude(digits, 10);
        Some(if s[0] == '-' then -m else m)
  }

  /**
   * An unsigned decimal number as `Double.parseDouble` reads it: digits with at most one
   * point (at least one digit in all), an optional exponent, an optional type suffix.
   */
  function ParseUnsignedDecimal(u: string): Option<real> {
    var body := if u != [] && TypeSuffix(u[|u| - 1]) then u[..|u| - 1] else u;
    var e := ExponentAt(body);
    var mantissa := body[..e];
    var whole := TakeUntil(mantissa, '.');
    var fraction := if |whole| < |mantissa| then mantissa[|whole| + 1..] else "";
    var exponent := if e == |body| then Some(0) else ParseExponent(body[e + 1..]);
    if !AllDigits(whole, 10) || !AllDigits(fraction, 10) || |whole| + |fraction| == 0 || exponent.None? then None
    else
      Some(Scale(Magnitude(whole + fraction, 10) as real, exponent.value - |fraction|))
  }

  /**
   * `Double.parseDouble`: after trimming, an optional sign and then "NaN", "Infinity" or a
   * decimal number; None where Java throws NumberFormatException. Hexadecimal
   * floating-point literals are not modelled (they read as malformed here).
   */
  function ParseDouble(s: string): (r: Option<Float>)
    ensures r.Some? ==> Trim(s) != []
  {
    var t := Trim(s);
    if t == [] then None else ParseSigned(t)
  }

  /** A trimmed, non-empty `Double.parseDouble` argument: an optional sign, then the rest. */
  function ParseSigned(t: string): Option<Float>
    requires t != []
  {
    var u := SignFree(t);
    if u == "NaN" then Some(NaN)
    else if u == "Infinity" then Some(Infinite(t[0] == '-'))
    else WithSign(t[0] == '-', ParseUnsignedDecimal(u))
  }

  function WithSign(negative: bool, m: Option<real>): Option<Float> {
    match m
    case None => None
    case Some(v) => Some(Finite(if negative then -v else v))
  }

  // ---------------------------------------------------------------------------
  // Properties

  lemma {:induction false} JoinFields(s: string, c: char)
    ensures Join(Fields(s, c), c) == s
    decreases |s|
  {
    var head := TakeUntil(s, c);
    if |head| < |s| {
      JoinFields(s[|head| + 1..], c);
      assert s == head + [c] + s[|head| + 1..];
    }
  }

  /** The fields are separated by `c` exactly where `s` holds a `c`. */
  lemma {:induction false} FieldsCount(s: string, c: char)
    ensures |Fields(s, c)| == multiset(s)[c] + 1
    decreases |s|
  {
    var head := TakeUntil(s, c);
    if |head| == |s| {
      assert s == head;
    } else {
      FieldsCount(s[|head| + 1..], c);
      assert s == head + [c] + s[|head| + 1..];
    }
  }

  /** When `s` does not start with `c`, the first element of the split is the part before the first `c`. */
  lemma SplitHead(s: string, c: char)
    requires TakeUntil(s, c) != ""
    ensures |Split(s, c)| >= 1 && Split(s, c)[0] == TakeUntil(s, c)
  {
    if c in s {
      var fs := Fields(s, c);
      var head := TakeUntil(s, c);
      assert head == s ==> c in head;
      assert fs[0] == head;
      var r := DropTrailingEmpty(fs);
      assert fs[0] != "";
    }
  }

  /** The split never yields an element containing the separator. */
  lemma SplitFree(s: string, c: char)
    ensures forall i :: 0 <= i < |Split(s, c)| ==> c !in Split(s, c)[i]
  {
    if c !in s {
    } else {
      var fs := Fields(s, c);
      var r := DropTrailingEmpty(fs);
      forall i | 0 <= i < |r| ensures c !in r[i] {
        assert r[i] == fs[i];
      }
    }
  }

  /** Appending one digit multiplies the value by the radix and adds the digit. */
  lemma MagnitudeSnoc(p: string, d: char, radix: nat, q: nat, m: nat, n: nat)
    requires 2 <= radix <= 36
    requires AllDigits(p, radix) && Magnitude(p, radix) == q
    requires AlnumValue(d) == m && m < radix
    requires n == q * radix + m
    ensures AllDigits(p + [d], radix)
    ensures Magnitude(p + [d], radix) == n
  {
    assert (p + [d])[..|p|] == p;
  }

  lemma DivMod(n: nat, radix: nat)
    requires 2 <= radix
    ensures n == (n / radix) * radix + n % radix
    ensures n >= radix ==> n / radix < n
  {
    var q := n / radix;
    assert q * radix >= q * 2 by {
      assert q * radix - q * 2 == q * (radix - 2);
    }
  }

  lemma {:induction false} MagnitudeOfDigits(n: nat, radix: nat)
    requires 2 <= radix <= 16
    ensures AllDigits(Digits(n, radix), radix)
    ensures Magnitude(Digits(n, radix), radix) == n
    decreases n
  {
    if n < radix {
      MagnitudeSnoc([], DigitChar(n), radix, 0, n, n);
      assert [] + [DigitChar(n)] == Digits(n, radix);
    } else {
      DivMod(n, radix);
      var q, m := n / radix, n % radix;
      assert Digits(n, radix) == Digits(q, radix) + [DigitChar(m)];
      MagnitudeOfDigits(q, radix);
      MagnitudeSnoc(Digits(q, radix), DigitChar(m), radix, q, m, n);
    }
  }

  /** The first digit is never '0', except for zero itself. */
  lemma {:induction false} DigitsNoLeadingZero(n: nat, radix: nat)
    requires 2 <= radix <= 16
    ensures (Digits(n, radix)[0] == '0') <==> n == 0
    decreases n
  {
    if n >= radix {
      DigitsNoLeadingZero(n / radix, radix);
    }
  }

  /** Reading back what DecimalString wrote gives the same `int`. */
  lemma DecimalRoundTrip(n: Int32)
    ensures ParseInt(DecimalString(n), 10) == Some(n)
  {
    if n < 0 {
      ParseNegative(n);
    } else {
      ParseNonNegative(n);
    }
  }

  lemma ParseNonNegative(n: nat)
    requires n < 0x8000_0000
    ensures ParseInt(Digits(n, 10), 10) == Some(n)
  {
    var d := Digits(n, 10);
    MagnitudeOfDigits(n, 10);
    assert UpperHexDigit(d[0]) && AlnumValue(d[0]) < 10;
    assert SignFree(d) == d;
  }

  lemma ParseNegative(v: Int32)
    requires v < 0
    ensures ParseInt("-" + Digits(-(v as int), 10), 10) == Some(v)
  {
    var n := -(v as int);
    var d := Digits(n, 10);
    MagnitudeOfDigits(n, 10);
    assert SignFree("-" + d) == d;
  }

  /** The hex text of an `int` reads back as its 32-bit two's-complement value, without leading zeros. */
  lemma UpperHexValue(n: Int32)
    ensures AllDigits(UpperHexString(n), 16)
    ensures Magnitude(UpperHexString(n), 16) == n % TwoTo32
    ensures UpperHexString(n)[0] == '0' <==> n == 0
  {
    var m := n % TwoTo32;
    assert m == 0 <==> n == 0;
    MagnitudeOfDigits(m, 16);
    DigitsNoLeadingZero(m, 16);
  }

  /** `Integer.parseInt(.., 16)` reads back the hex text of a non-negative `int`, and rejects that of a negative one (its magnitude is beyond `int` range). */
  lemma ParseHexString(n: Int32)
    ensures n >= 0 ==> ParseInt(UpperHexString(n), 16) == Some(n)
    ensures n < 0 ==> ParseInt(UpperHexString(n), 16) == None
  {
    var d := UpperHexString(n);
    UpperHexValue(n);
    assert UpperHexDigit(d[0]);
    assert SignFree(d) == d;
  }

  /** A string of decimal digits reads as a `double` of its value. */
  lemma ParseDoubleDigits(d: string, n: nat)
    requires d != [] && AllDigits(d, 10) && Magnitude(d, 10) == n
    ensures ParseDouble(d) == Some(Finite(n as real))
  {
    UnsignedDigits(d, n);
    DecimalDigits(d);
    TrimPrintable(d);
  }

  /** A minus sign followed by decimal digits reads as a `double` of the negated value. */
  lemma ParseDoubleNegatedDigits(d: string, n: nat)
    requires d != [] && AllDigits(d, 10) && Magnitude(d, 10) == n
    ensures ParseDouble("-" + d) == Some(Finite(-(n as real)))
  {
    UnsignedDigits(d, n);
    DecimalDigits(d);
    NegatedDigits(d, n);
  }

  /** Digits, a point and digits (at least one digit in all) read as the `double` of the number all the digits spell, divided by ten to the number of fraction digits. */
  lemma ParseDoubleFraction(w: string, f: string, n: nat)
    requires |w| + |f| > 0 && AllDigits(w, 10) && AllDigits(f, 10)
    requires AllDigits(w + f, 10) && Magnitude(w + f, 10) == n
    ensures ParseDouble(w + "." + f) == Some(Finite(Scale(n as real, -(|f| as int))))
  {
    var s := w + "." + f;
    assert s[0] == '.' || DigitValue(s[0], 10) >= 0 by {
      if w != [] { assert s[0] == w[0]; }
    }
    assert s[|s| - 1] == '.' || DigitValue(s[|s| - 1], 10) >= 0 by {
      if f != [] { assert s[|s| - 1] == f[|f| - 1]; }
    }
    assert s != "NaN" && s != "Infinity" by {
      assert s[|w|] == '.';
      assert '.' in s && '.' !in "NaN" && '.' !in "Infinity";
    }
    FractionValue(w, f, n);
    PlainDecimal(s, Scale(n as real, -(|f| as int)));
  }

  /** The mantissa of `w + "." + f` splits at the point into `w` and `f`, and there is no exponent. */
  lemma FractionValue(w: string, f: string, n: nat)
    requires AllDigits(w, 10) && AllDigits(f, 10) && |w| + |f| > 0
    requires AllDigits(w + f, 10) && Magnitude(w + f, 10) == n
    ensures ParseUnsignedDecimal(w + "." + f) == Some(Scale(n as real, -(|f| as int)))
  {
    var s := w + "." + f;
    MantissaOnly(w, f);
    assert s[..|s|] == s;
    TakeUntilPoint(w, f);
    assert s[|w| + 1..] == f;
  }

  /** Digits, a point and digits carry neither an exponent nor a type suffix. */
  lemma MantissaOnly(w: string, f: string)
    requires AllDigits(w, 10) && AllDigits(f, 10)
    ensures !TypeSuffix((w + "." + f)[|w + "." + f| - 1])
    ensures ExponentAt(w + "." + f) == |w + "." + f|
  {
    var s := w + "." + f;
    if f != [] {
      assert s[|s| - 1] == f[|f| - 1];
    }
    forall k | 0 <= k < |s|
      ensures s[k] != 'e' && s[k] != 'E'
    {
      if k < |w| {
        assert s[k] == w[k];
      } else if k > |w| {
        assert s[k] == f[k - |w| - 1];
      }
    }
  }

  /** A text starting with a digit or a point and ending above U+0020, other than "NaN" and "Infinity", reads as the unsigned decimal it spells. */
  lemma PlainDecimal(s: string, v: real)
    requires s != [] && (s[0] == '.' || DigitValue(s[0], 10) >= 0) && s[|s| - 1] > ' '
    requires s != "NaN" && s != "Infinity" && ParseUnsignedDecimal(s) == Some(v)
    ensures ParseDouble(s) == Some(Finite(v))
  {
    TrimPrintable(s);
    assert SignFree(s) == s;
  }

  /** Digits, an 'e' and digits read as the `double` of the first number times ten to the power of the second. */
  lemma ParseDoubleExponent(d: string, x: string, n: nat, e: nat)
    requires d != [] && AllDigits(d, 10) && Magnitude(d, 10) == n
    requires x != [] && AllDigits(x, 10) && Magnitude(x, 10) == e
    ensures ParseDouble(d + "e" + x) == Some(Finite(Scale(n as real, e)))
  {
    var s := d + "e" + x;
    assert s[0] == d[0] && s[|s| - 1] == x[|x| - 1];
    assert s != "NaN" && s != "Infinity" by {
      assert s[0] != "NaN"[0] && s[0] != "Infinity"[0];
    }
    ExponentValue(d, x, n, e);
    PlainDecimal(s, Scale(n as real, e));
  }

  /** The mantissa of `d + "e" + x` is `d`, with no point, and its exponent is the value of `x`. */
  lemma ExponentValue(d: string, x: string, n: nat, e: nat)
    requires d != [] && AllDigits(d, 10) && Magnitude(d, 10) == n
    requires x != [] && AllDigits(x, 10) && Magnitude(x, 10) == e
    ensures ParseUnsignedDecimal(d + "e" + x) == Some(Scale(n as real, e))
  {
    var s := d + "e" + x;
    assert s[|s| - 1] == x[|x| - 1];
    DecimalDigits(d);
    ExponentMarkerAt(d, x);
    assert s[..|d|] == d;
    assert s[|d| + 1..] == x;
    DigitsExponent(x, e);
    assert d + "" == d;
  }

  /** The first exponent marker of `d + "e" + x`, for digits `d`, is the one after `d`. */
  lemma ExponentMarkerAt(d: string, x: string)
    requires AllDigits(d, 10)
    ensures ExponentAt(d + "e" + x) == |d|
  {
    var s := d + "e" + x;
    assert forall j :: 0 <= j < |d| ==> s[j] == d[j] && '0' <= d[j] <= '9';
    assert s[|d|] == 'e';
  }

  /** Digits read as a non-negative exponent. */
  lemma DigitsExponent(x: string, e: nat)
    requires x != [] && AllDigits(x, 10) && Magnitude(x, 10) == e
    ensures ParseExponent(x) == Some(e)
  {
    assert SignFree(x) == x;
  }

  /** The text before the point of `w + "." + f`, when `w` holds no point, is `w`. */
  lemma {:induction false} TakeUntilPoint(w: string, f: string)
    requires '.' !in w
    ensures TakeUntil(w + "." + f, '.') == w
    decreases |w|
  {
    if w != [] {
      TakeUntilPoint(w[1..], f);
      assert (w + "." + f)[1..] == w[1..] + "." + f;
    }
  }

  /** "NaN" and "Infinity", with or without a sign, read as NaN and the signed infinity. */
  lemma ParseDoubleSpecial()
    ensures ParseDouble("NaN") == Some(NaN) && ParseDouble("-NaN") == Some(NaN)
    ensures ParseDouble("Infinity") == Some(Infinite(false)) && ParseDouble("+Infinity") == Some(Infinite(false))
    ensures ParseDouble("-Infinity") == Some(Infinite(true))
  {
    TrimPrintable("NaN");
    TrimPrintable("-NaN");
    TrimPrintable("Infinity");
    TrimPrintable("+Infinity");
    TrimPrintable("-Infinity");
    assert SignFree("-NaN") == "NaN";
    assert SignFree("+Infinity") == "Infinity";
    assert SignFree("-Infinity") == "Infinity";
  }

  lemma NegatedDigits(d: string, n: nat)
    requires d != [] && d[|d| - 1] > ' '
    requires d != "NaN" && d != "Infinity" && ParseUnsignedDecimal(d) == Some(n as real)
    ensures ParseDouble("-" + d) == Some(Finite(-(n as real)))
  {
    var m := "-" + d;
    assert m[1..] == d;
    TrimPrintable(m);
    NegatedSigned(m, d, n);
  }

  lemma NegatedSigned(m: string, d: string, n: nat)
    requires m != [] && m[0] == '-' && m[1..] == d
    requires d != "NaN" && d != "Infinity" && ParseUnsignedDecimal(d) == Some(n as real)
    ensures ParseSigned(m) == Some(Finite(-(n as real)))
  {
    assert SignFree(m) == d;
  }

  /** Trimming leaves a string alone when it starts and ends above U+0020. */
  lemma TrimPrintable(s: string)
    requires s != [] && s[0] > ' ' && s[|s| - 1] > ' '
    ensures Trim(s) == s
  {
  }

  lemma UnsignedDigits(d: string, n: nat)
    requires d != [] && AllDigits(d, 10) && Magnitude(d, 10) == n
    ensures d != "NaN" && d != "Infinity"
    ensures ParseUnsignedDecimal(d) == Some(n as real)
  {
    DecimalDigits(d);
    assert d[..|d|] == d;
    assert d + "" == d;
    assert Scale(n as real, 0) == n as real * Pow10(0) == n as real;
  }

  /** A string of decimal digits has no sign, point, exponent marker or type suffix. */
  lemma DecimalDigits(d: string)
    requires d != [] && AllDigits(d, 10)
    ensures d[0] != 'N' && d[0] != 'I' && !TypeSuffix(d[|d| - 1])
    ensures ExponentAt(d) == |d|
    ensures TakeUntil(d, '.') == d
  {
    assert forall i :: 0 <= i < |d| ==> '0' <= d[i] <= '9';
    assert 'e' !in d && 'E' !in d && '.' !in d;
  }

  /** `"PRS "` splits into a single token: the trailing empty field is dropped. */
  lemma SplitDropsTrailingSpace()
    ensures Split("PRS ", ' ') == ["PRS"]
  {
    assert "PRS "[3] == ' ';
    assert TakeUntil("PRS ", ' ') == "PRS" by {
      assert TakeUntil(" ", ' ') == "";
    }
    assert Fields("", ' ') == [""];
    assert Fields("PRS ", ' ') == ["PRS", ""];
    assert DropTrailingEmpty(["PRS"]) == ["PRS"];
  }

  /** The empty line is one (empty) token. */
  lemma SplitEmptyLine()
    ensures Split("", ' ') == [""]
  {
  }

}

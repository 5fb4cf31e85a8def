/**
 * Decoding of one `$PMTKLOX` line of the GPS logger's LOCUS dump: the hex text of each
 * group of four comma fields becomes a binary record whose timestamp, fix code and
 * height are read little-endian; a row is written for every record with fix code 2,
 * and the raw line once per record. The two output files are modelled as a sink
 * state and the sequences of lines and rows written to them.
 */
module Locus {
  import opened Wrappers
  import opened JavaText

  /** A Java `byte`. */
  type Int8 = x: int | -128 <= x < 128

  /** The `(byte)` cast: the low eight bits, read as two's complement. */
  function ToByte(x: int): (b: Int8)
    ensures (x - b) % 256 == 0
  {
    (x + 128) % 256 - 128
  }

  /** `b & 0xFF`: the byte read as unsigned. */
  function Unsigned(b: Int8): (u: nat)
    ensures u < 256 && ToByte(u) == b
  {
    if b < 0 then b + 256 else b
  }

  /** Reading an unsigned octet back from its byte gives the octet. */
  lemma UnsignedToByte(u: nat)
    requires u < 256
    ensures Unsigned(ToByte(u)) == u
  {
  }

  // ---------------------------------------------------------------------------
  // hexStringToByteArray

  /** One byte: `(byte) ((Character.digit(hi, 16) << 4) + Character.digit(lo, 16))`, a non-hex character counting as -1. */
  function HexByte(hi: char, lo: char): Int8 {
    ToByte(DigitValue(hi, 16) * 16 + DigitValue(lo, 16))
  }

  /** The bytes `hexStringToByteArray` produces from an even-length string: one per pair of characters. */
  function DecodeHex(s: string): (r: seq<Int8>)
    requires |s| % 2 == 0
    ensures 2 * |r| == |s|
  {
    if s == [] then [] else [HexByte(s[0], s[1])] + DecodeHex(s[2..])
  }

  /** Byte `k` comes from characters `2k` and `2k + 1`. */
  lemma {:induction false} DecodeHexAt(s: string)
    requires |s| % 2 == 0
    ensures forall k {:trigger DecodeHex(s)[k]} :: 0 <= k < |DecodeHex(s)| ==> DecodeHex(s)[k] == HexByte(s[2 * k], s[2 * k + 1])
  {
    if s != [] {
      DecodeHexAt(s[2..]);
      assert DecodeHex(s)[0] == HexByte(s[0], s[1]);
      forall k | 1 <= k < |DecodeHex(s)|
        ensures DecodeHex(s)[k] == HexByte(s[2 * k], s[2 * k + 1])
      {
        DecodeHexShift(s, k);
      }
    }
  }

  /** Past the first pair, byte `k` of `s` is byte `k - 1` of the rest, read from the same two characters. */
  lemma {:induction false} DecodeHexShift(s: string, k: nat)
    requires |s| % 2 == 0 && 1 <= k < |DecodeHex(s)|
    ensures DecodeHex(s)[k] == DecodeHex(s[2..])[k - 1]
    ensures s[2..][2 * (k - 1)] == s[2 * k] && s[2..][2 * (k - 1) + 1] == s[2 * k + 1]
  {
    var head, rest := [HexByte(s[0], s[1])], DecodeHex(s[2..]);
    assert DecodeHex(s) == head + rest;
    assert (head + rest)[k] == rest[k - 1];
  }

  /** The assertion `hexStringToByteArray` makes on its argument's length, as written. */
  predicate LengthAssert(s: string) {
    |s| % 2 == 1
  }

  /** Why `hexStringToByteArray` throws when it is run with assertions enabled. */
  datatype HexFault = AssertionFailed | IndexOutOfBounds

  /**
   * The loop of `hexStringToByteArray` from index `i` on, two characters at a time:
   * on an odd-length string its last step reads `charAt(i + 1)` past the end.
   */
  function HexLoop(s: string, i: nat): Result<seq<Int8>, HexFault>
    requires i <= |s|
    decreases |s| - i
  {
    if i == |s| then Success([])
    else if i + 1 == |s| then Failure(IndexOutOfBounds)
    else
      match HexLoop(s, i + 2)
      case Success(rest) => Success([HexByte(s[i], s[i + 1])] + rest)
      case Failure(fault) => Failure(fault)
  }

  /** `hexStringToByteArray` as written, run with assertions enabled (`java -ea`): the length assertion, then the loop. */
  function CheckedHexStringToByteArray(s: string): Result<seq<Int8>, HexFault> {
    if !LengthAssert(s) then Failure(AssertionFailed) else HexLoop(s, 0)
  }

  /** From a position an odd number of characters before the end, the loop reads past the end. */
  lemma {:induction false} OddLoopOverruns(s: string, i: nat)
    requires i <= |s| && (|s| - i) % 2 == 1
    ensures HexLoop(s, i) == Failure(IndexOutOfBounds)
    decreases |s| - i
  {
    if i + 1 < |s| {
      OddLoopOverruns(s, i + 2);
    }
  }

  /**
   * With assertions enabled, `hexStringToByteArray` as written throws on every string:
   * the assertion rejects every even length, and the loop overruns every odd one.
   */
  lemma CheckedDecodeAlwaysThrows(s: string)
    ensures CheckedHexStringToByteArray(s).Failure?
    ensures |s| % 2 == 0 ==> CheckedHexStringToByteArray(s) == Failure(AssertionFailed)
    ensures |s| % 2 == 1 ==> CheckedHexStringToByteArray(s) == Failure(IndexOutOfBounds)
  {
    if LengthAssert(s) {
      OddLoopOverruns(s, 0);
    }
  }

  /** Without the assertion (or with one demanding an even length), the loop decodes every even-length string. */
  lemma {:induction false} EvenLoopDecodes(s: string, i: nat)
    requires i <= |s| && (|s| - i) % 2 == 0
    ensures HexLoop(s, i) == Success(DecodeHex(s[i..]))
    decreases |s| - i
  {
    if i < |s| {
      EvenLoopDecodes(s, i + 2);
      assert s[i..][2..] == s[i + 2..];
    }
  }

  /** `hexStringToByteArray`, for the even-length strings its loop can decode. */
  method HexStringToByteArray(s: string) returns (data: array<Int8>)
    requires |s| % 2 == 0
    ensures fresh(data)
    ensures data[..] == DecodeHex(s)
  {
    data := new Int8[|s| / 2];
    var i := 0;
    while i < |s|
      invariant 0 <= i <= |s| && i % 2 == 0
      invariant forall k :: 0 <= k < i / 2 ==> data[k] == HexByte(s[2 * k], s[2 * k + 1])
    {
      data[i / 2] := HexByte(s[i], s[i + 1]);
      i := i + 2;
    }
    DecodeHexAt(s);
  }

  /** The two upper-case hex digits of one byte, most significant first. */
  function HexPair(b: Int8): (s: string)
    ensures |s| == 2
  {
    var u := Unsigned(b);
    [DigitChar(u / 16), DigitChar(u % 16)]
  }

  /** Two upper-case hex digits per byte, most significant first. */
  function EncodeHex(bytes: seq<Int8>): (s: string)
    ensures |s| == 2 * |bytes|
  {
    if bytes == [] then "" else HexPair(bytes[0]) + EncodeHex(bytes[1..])
  }

  /** The two digits written for a byte read back as that byte. */
  lemma HexByteOfDigits(b: Int8)
    ensures HexByte(HexPair(b)[0], HexPair(b)[1]) == b
  {
    var u := Unsigned(b);
    assert DigitValue(DigitChar(u / 16), 16) == u / 16;
    assert DigitValue(DigitChar(u % 16), 16) == u % 16;
    assert u / 16 * 16 + u % 16 == u;
  }

  /** Twice a number is even. */
  lemma Even(n: nat)
    ensures (2 * n) % 2 == 0
  {
  }

  /** A pair of characters in front adds the byte they denote in front. */
  lemma DecodeHexCons(pair: string, rest: string)
    requires |pair| == 2 && |rest| % 2 == 0
    ensures DecodeHex(pair + rest) == [HexByte(pair[0], pair[1])] + DecodeHex(rest)
  {
    var s := pair + rest;
    assert s[0] == pair[0] && s[1] == pair[1] && s[2..] == rest;
  }

  /** Decoding the hex text of a byte sequence gives the bytes back. */
  lemma {:induction false} HexRoundTrip(bytes: seq<Int8>)
    ensures DecodeHex(EncodeHex(bytes)) == bytes
  {
    if bytes != [] {
      var pair, rest := HexPair(bytes[0]), EncodeHex(bytes[1..]);
      Even(|bytes| - 1);
      HexRoundTrip(bytes[1..]);
      HexByteOfDigits(bytes[0]);
      DecodeHexCons(pair, rest);
      assert bytes == [bytes[0]] + bytes[1..];
    }
  }

  // ---------------------------------------------------------------------------
  // One LOCUS record

  /** The unsigned value of bytes stored least significant first. */
  function LittleEndianValue(bs: seq<Int8>): nat
  {
    if bs == [] then 0 else Unsigned(bs[0]) + 0x100 * LittleEndianValue(bs[1..])
  }

  /** Four bytes spelled out: their value is below 2^32. */
  lemma FourOctets(q: seq<Int8>)
    requires |q| == 4
    ensures LittleEndianValue(q) == Unsigned(q[0]) + 0x100 * Unsigned(q[1]) + 0x1_0000 * Unsigned(q[2]) + 0x100_0000 * Unsigned(q[3])
    ensures LittleEndianValue(q) < TwoTo32
  {
    var q1 := q[1..];
    var q2 := q1[1..];
    var q3 := q2[1..];
    assert q3[1..] == [];
    assert LittleEndianValue(q3) == Unsigned(q[3]);
    assert LittleEndianValue(q2) == Unsigned(q[2]) + 0x100 * Unsigned(q[3]);
    assert LittleEndianValue(q1) == Unsigned(q[1]) + 0x100 * LittleEndianValue(q2);
  }

  /** `ByteBuffer.order(LITTLE_ENDIAN).getInt()` of four bytes starting at `k`. */
  function Int32At(bs: seq<Int8>, k: nat): Int32
    requires k + 4 <= |bs|
  {
    var u := LittleEndianValue(bs[k..k + 4]);
    FourOctets(bs[k..k + 4]);
    if u < 0x8000_0000 then u else u - TwoTo32
  }

  /** The fields read from the first fifteen bytes of a record. Latitude and longitude stay as their 32 raw bits. */
  datatype Record = Record(timestamp: Int32, fix: Int8, latitudeBits: Int32, longitudeBits: Int32, height: Int32)

  /** Bytes 0-3 are the timestamp, byte 4 the fix code, 5-8 and 9-12 the coordinates, 13-14 the height widened with two zero bytes. */
  function DecodeRecord(bytes: seq<Int8>): (r: Record)
    requires |bytes| >= 15
    ensures 0 <= r.height < 0x1_0000
    ensures r.fix == bytes[4]
  {
    SmallHeight(bytes[13], bytes[14]);
    Record(Int32At(bytes, 0), bytes[4], Int32At(bytes, 5), Int32At(bytes, 9), Int32At([bytes[13], bytes[14], 0, 0], 0))
  }

  /** Two bytes widened with two zero bytes read as a value below 2^16. */
  lemma SmallHeight(low: Int8, high: Int8)
    ensures 0 <= Int32At([low, high, 0, 0], 0) < 0x1_0000
  {
    var q := [low, high, 0, 0];
    assert q[0..4] == q;
    FourOctets(q);
  }

  /** The four little-endian bytes of a 32-bit integer. */
  function LittleEndian(x: Int32): (bs: seq<Int8>)
    ensures |bs| == 4
  {
    var u := x % TwoTo32;
    [ToByte(u % 0x100), ToByte(u / 0x100 % 0x100), ToByte(u / 0x1_0000 % 0x100), ToByte(u / 0x100_0000)]
  }

  /** An unsigned 32-bit value is the sum of its four octets, least significant first. */
  lemma OctetSum(u: nat)
    requires u < TwoTo32
    ensures u % 0x100 + 0x100 * (u / 0x100 % 0x100) + 0x1_0000 * (u / 0x1_0000 % 0x100) + 0x100_0000 * (u / 0x100_0000) == u
  {
    var a := u / 0x100;
    var b := a / 0x100;
    var c := b / 0x100;
    assert u == 0x100 * a + u % 0x100;
    assert a == 0x100 * b + a % 0x100;
    assert b == 0x100 * c + b % 0x100;
    assert u / 0x1_0000 == b;
    assert u / 0x100_0000 == c;
  }

  /** An `int` is its unsigned 32-bit residue, less 2^32 when that residue has the sign bit set. */
  lemma Wrap32(x: Int32)
    ensures 0 <= x % TwoTo32 < TwoTo32
    ensures x % TwoTo32 < 0x8000_0000 ==> x % TwoTo32 == x
    ensures x % TwoTo32 >= 0x8000_0000 ==> x % TwoTo32 - TwoTo32 == x
  {
    if x < 0 {
      assert x + TwoTo32 == x % TwoTo32;
    }
  }

  /** Four bytes holding the octets of `u`, least significant first, read back unsigned as `u`. */
  lemma OctetsRead(bs: seq<Int8>, k: nat, u: nat)
    requires k + 4 <= |bs| && u < TwoTo32
    requires bs[k] == ToByte(u % 0x100) && bs[k + 1] == ToByte(u / 0x100 % 0x100)
    requires bs[k + 2] == ToByte(u / 0x1_0000 % 0x100) && bs[k + 3] == ToByte(u / 0x100_0000)
    ensures Unsigned(bs[k]) + 0x100 * Unsigned(bs[k + 1]) + 0x1_0000 * Unsigned(bs[k + 2]) + 0x100_0000 * Unsigned(bs[k + 3]) == u
  {
    UnsignedToByte(u % 0x100);
    UnsignedToByte(u / 0x100 % 0x100);
    UnsignedToByte(u / 0x1_0000 % 0x100);
    UnsignedToByte(u / 0x100_0000);
    OctetSum(u);
  }

  /** Reading back the little-endian bytes of an integer gives the integer. */
  lemma LittleEndianRoundTrip(x: Int32, bs: seq<Int8>, k: nat)
    requires k + 4 <= |bs| && bs[k..k + 4] == LittleEndian(x)
    ensures Int32At(bs, k) == x
  {
    var le := LittleEndian(x);
    Wrap32(x);
    FourOctets(le);
    OctetsRead(le, 0, x % TwoTo32);
  }

  /** The fifteen bytes a record is read from; the height must fit the two bytes it occupies. */
  function EncodeRecord(r: Record): (bs: seq<Int8>)
    requires 0 <= r.height < 0x1_0000
    ensures |bs| == 15
  {
    LittleEndian(r.timestamp) + [r.fix] + LittleEndian(r.latitudeBits) + LittleEndian(r.longitudeBits) + LittleEndian(r.height)[..2]
  }

  /** A value below 2^16 has two zero high bytes. */
  lemma SmallLittleEndian(x: Int32)
    requires 0 <= x < 0x1_0000
    ensures LittleEndian(x) == LittleEndian(x)[..2] + [0, 0]
  {
    assert x % TwoTo32 == x;
    assert x / 0x1_0000 == 0 && x / 0x100_0000 == 0;
  }

  /** Decoding the encoding of a record, followed by any further bytes, gives the record back. */
  lemma RecordRoundTrip(r: Record, tail: seq<Int8>)
    requires 0 <= r.height < 0x1_0000
    ensures DecodeRecord(EncodeRecord(r) + tail) == r
  {
    var t, f, la, lo, h := LittleEndian(r.timestamp), [r.fix], LittleEndian(r.latitudeBits), LittleEndian(r.longitudeBits), LittleEndian(r.height);
    var bs := EncodeRecord(r) + tail;
    assert bs == t + f + la + lo + h[..2] + tail;
    assert bs[0..4] == t;
    assert bs[4] == r.fix;
    assert bs[5..9] == la;
    assert bs[9..13] == lo;
    LittleEndianRoundTrip(r.timestamp, bs, 0);
    LittleEndianRoundTrip(r.latitudeBits, bs, 5);
    LittleEndianRoundTrip(r.longitudeBits, bs, 9);
    SmallLittleEndian(r.height);
    assert [bs[13], bs[14], 0, 0] == h;
    LittleEndianRoundTrip(r.height, h, 0);
  }

  // ---------------------------------------------------------------------------
  // One $PMTKLOX line

  /** Why decoding a line ends in an exception. */
  datatype Failure =
    | MissingField   // the line has fewer fields than an index it reads
    | OddHexLength   // a record's hex text has odd length, and the decoding loop reads past its end
    | ShortRecord    // a record has fewer than the fifteen bytes read from it
    | NoSink         // a write to an output whose writer was never opened

  /** The writers of the two output files: never opened (null), open, or closed (a closed `PrintWriter` discards what is written). */
  datatype Sink = Missing | Open | Closed

  /** The two output files, `locus_record.mtk` (raw lines) and `locus_record.csv` (one row per record with fix code 2), and their writers. */
  datatype Log = Log(sink: Sink, raw: seq<string>, rows: seq<Record>)

  /** What decoding the records of one line writes, and the failure that ended it, if any. */
  datatype Writes = Writes(raw: seq<string>, rows: seq<Record>, failure: Option<Failure>)

  /** The hex text of each complete group of four fields; a trailing incomplete group is never decoded. */
  function Groups(fs: seq<string>): seq<string>
    decreases |fs|
  {
    if |fs| < 4 then [] else [fs[0] + fs[1] + fs[2] + fs[3]] + Groups(fs[4..])
  }

  /** What the record builder holds after appending the `n` fields from `a` on. */
  function Appended(fs: seq<string>, a: nat, n: nat): string
    requires a + n <= |fs| && n <= 4
  {
    if n == 0 then "" else Appended(fs, a, n - 1) + fs[a + n - 1]
  }

  /** The fields from the fourth on, which hold the records. */
  function Data(split: seq<string>): seq<string> {
    if |split| > 3 then split[3..] else []
  }

  /** The hex text of a record the loop decodes without an exception. */
  predicate Decodable(g: string) {
    |g| % 2 == 0 && |g| >= 30
  }

  /** One complete group: decode it; with open writers, write a row when its fix code is 2, then the raw line. */
  function GroupEffect(g: string, line: string, sink: Sink): (w: Writes)
    ensures w.failure.None? <==> Decodable(g) && sink != Missing
  {
    if |g| % 2 == 1 then Writes([], [], Some(OddHexLength))
    else
      var bytes := DecodeHex(g);
      if |bytes| < 15 then Writes([], [], Some(ShortRecord))
      else if sink == Missing then Writes([], [], Some(NoSink))
      else if sink == Closed then Writes([], [], None)
      else
        var r := DecodeRecord(bytes);
        Writes([line], if r.fix == 2 then [r] else [], None)
  }

  /** Writes of one stretch followed by those of the next, unless the first ended in an exception. */
  function Then(a: Writes, b: Writes): Writes {
    if a.failure.Some? then a else Writes(a.raw + b.raw, a.rows + b.rows, b.failure)
  }

  /** The groups in order, stopping at the first exception. */
  function ProcessGroups(gs: seq<string>, line: string, sink: Sink): Writes {
    if gs == [] then Writes([], [], None)
    else Then(ProcessGroups(gs[..|gs| - 1], line, sink), GroupEffect(gs[|gs| - 1], line, sink))
  }

  /** The comma fields before the first `*`, or None when there are none to index. */
  function LineFields(line: string): Option<seq<string>> {
    var main := Split(line, '*');
    if main == [] then None
    else
      var split := Split(main[0], ',');
      if split == [] then None else Some(split)
  }

  /** One line given to the parser with the writers in `log`: mode 0 opens fresh files and writes the line, mode 1 decodes the records, mode 2 writes the line and closes the files. */
  function Feed(log: Log, line: string): (Log, Option<Failure>) {
    match LineFields(line)
    case None => (log, Some(MissingField))
    case Some(split) =>
      if split[0] != "$PMTKLOX" then (log, None)
      else if |split| < 2 then (log, Some(MissingField))
      else if split[1] == "0" then (Log(Open, [line], []), None)
      else if split[1] == "1" then
        var w := ProcessGroups(Groups(Data(split)), line, log.sink);
        (Log(log.sink, log.raw + w.raw, log.rows + w.rows), w.failure)
      else if split[1] == "2" then
        match log.sink
        case Missing => (log, Some(NoSink))
        case Open => (Log(Closed, log.raw + [line], log.rows), None)
        case Closed => (log, None)
      else (log, None)
  }

  /** The parser's constructor: split the line, then act on its mode with the writers in `log`. */
  method Parse(log: Log, line: string) returns (next: Log, failure: Option<Failure>)
    ensures (next, failure) == Feed(log, line)
  {
    next, failure := log, None;
    var fields := LineFields(line);
    if fields.None? {
      return log, Some(MissingField);
    }
    var split := fields.value;
    if split[0] == "$PMTKLOX" {
      if |split| < 2 {
        return log, Some(MissingField);
      }
      if split[1] == "0" {
        next := Log(Open, [line], []);
      }
      if split[1] == "1" {
        var w := DecodeRecords(split, line, log.sink);
        next, failure := Log(log.sink, log.raw + w.raw, log.rows + w.rows), w.failure;
      }
      if split[1] == "2" {
        match log.sink
        case Missing => failure := Some(NoSink);
        case Open => next := Log(Closed, log.raw + [line], log.rows);
        case Closed =>
      }
    }
  }

  /**
   * One `$PMTK` line as both decoders hand it over: `new PMTKParser(line)`, whose writer
   * fields start out null, and which is dropped as soon as it is built. Mode 0 opens
   * (and so empties) both files, but the raw line it prints stays in the buffer of a
   * writer that is never flushed or closed, so both files are left empty. No other
   * mode reaches the files: a write on the null writers throws first.
   */
  function FreshParser(files: Log, line: string): (r: (Log, Option<Failure>))
    ensures r.0.sink == Missing
  {
    var (next, failure) := Feed(Log(Missing, files.raw, files.rows), line);
    if next.sink == Open then (Log(Missing, [], []), failure)
    else (next.(sink := Missing), failure)
  }

  /** `new PMTKParser(line);`: a parser with writers of its own, dropped once built. */
  method ParseFresh(files: Log, line: string) returns (next: Log, failure: Option<Failure>)
    ensures (next, failure) == FreshParser(files, line)
  {
    var parsed;
    parsed, failure := Parse(Log(Missing, files.raw, files.rows), line);
    if parsed.sink == Open {
      next := Log(Missing, [], []);
    } else {
      next := parsed.(sink := Missing);
    }
  }

  /** Once a stretch has ended in an exception, later groups change nothing. */
  lemma {:induction false} Stopped(gs: seq<string>, n: nat, line: string, sink: Sink)
    requires n <= |gs| && ProcessGroups(gs[..n], line, sink).failure.Some?
    ensures ProcessGroups(gs, line, sink) == ProcessGroups(gs[..n], line, sink)
    decreases |gs| - n
  {
    if n < |gs| {
      var m := |gs| - 1;
      assert gs[..m][..n] == gs[..n];
      Stopped(gs[..m], n, line, sink);
      assert gs[..|gs|] == gs;
    } else {
      assert gs[..n] == gs;
    }
  }

  /** The body of the record loop for one complete group: decode it, then write the row and the raw line. */
  method DecodeGroup(record: string, line: string, sink: Sink) returns (e: Writes)
    ensures e == GroupEffect(record, line, sink)
  {
    if |record| % 2 == 1 {
      return Writes([], [], Some(OddHexLength));
    }
    var bytes := HexStringToByteArray(record);
    if bytes.Length < 15 {
      return Writes([], [], Some(ShortRecord));
    }
    var r := DecodeRecord(bytes[..]);
    var rows: seq<Record> := [];
    if r.fix == 2 {
      if sink == Missing {
        return Writes([], [], Some(NoSink));
      }
      if sink == Open {
        rows := [r];
      }
    }
    if sink == Missing {
      return Writes([], [], Some(NoSink));
    }
    e := Writes(if sink == Open then [line] else [], rows, None);
  }

  /** Appending fields after dropping the first four is appending them four places further on. */
  lemma {:induction false} AppendedShift(fs: seq<string>, a: nat, n: nat)
    requires a + n + 4 <= |fs| && n <= 4
    ensures Appended(fs[4..], a, n) == Appended(fs, a + 4, n)
  {
    if n > 0 {
      AppendedShift(fs, a, n - 1);
    }
  }

  /** The `k`-th group is the four fields appended from `4k` on. */
  lemma {:induction false} GroupAt(fs: seq<string>, k: nat)
    requires 4 * k + 4 <= |fs|
    ensures k < |Groups(fs)|
    ensures Groups(fs)[k] == Appended(fs, 4 * k, 4)
  {
    var rest := Groups(fs[4..]);
    assert Groups(fs) == [fs[0] + fs[1] + fs[2] + fs[3]] + rest;
    if k == 0 {
      assert Appended(fs, 0, 1) == "" + fs[0] == fs[0];
      assert Appended(fs, 0, 2) == Appended(fs, 0, 1) + fs[1];
      assert Appended(fs, 0, 3) == Appended(fs, 0, 2) + fs[2];
      assert Appended(fs, 0, 4) == Appended(fs, 0, 3) + fs[3];
    } else {
      GroupAt(fs[4..], k - 1);
      AppendedShift(fs, 4 * (k - 1), 4);
      assert Groups(fs)[k] == rest[k - 1];
    }
  }

  /** The number of complete groups among the fields. */
  lemma {:induction false} GroupCount(fs: seq<string>, k: nat, n: nat)
    requires |fs| == 4 * k + n && n < 4
    ensures |Groups(fs)| == k
  {
    if k > 0 {
      GroupCount(fs[4..], k - 1, n);
    }
  }

  /** The writes of the first `k` complete groups of the fields, stopping at the first exception. */
  function Processed(fs: seq<string>, k: nat, line: string, sink: Sink): Writes
    requires 4 * k <= |fs|
  {
    if k == 0 then Writes([], [], None)
    else Then(Processed(fs, k - 1, line, sink), GroupEffect(Appended(fs, 4 * (k - 1), 4), line, sink))
  }

  /** One more complete group extends the writes of those before it. */
  lemma ProcessedStep(fs: seq<string>, k: nat, line: string, sink: Sink)
    requires 4 * k + 4 <= |fs|
    ensures Processed(fs, k + 1, line, sink) == Then(Processed(fs, k, line, sink), GroupEffect(Appended(fs, 4 * k, 4), line, sink))
  {
  }

  /** Processing the first `k` groups of the fields is processing the first `k` of their groups. */
  lemma {:induction false} ProcessedGroups(fs: seq<string>, k: nat, line: string, sink: Sink)
    requires 4 * k <= |fs|
    ensures k <= |Groups(fs)| && Processed(fs, k, line, sink) == ProcessGroups(Groups(fs)[..k], line, sink)
  {
    if k == 0 {
      assert Groups(fs)[..0] == [];
    } else {
      ProcessedGroups(fs, k - 1, line, sink);
      GroupAt(fs, k - 1);
      ProcessGroupsTake(Groups(fs), k, line, sink);
    }
  }

  /** One more group extends the writes of the groups before it. */
  lemma ProcessGroupsTake(gs: seq<string>, k: nat, line: string, sink: Sink)
    requires 0 < k <= |gs|
    ensures ProcessGroups(gs[..k], line, sink) == Then(ProcessGroups(gs[..k - 1], line, sink), GroupEffect(gs[k - 1], line, sink))
  {
    assert gs[..k][..k - 1] == gs[..k - 1];
  }

  /** Fewer than four fields past the last complete group add no group. */
  lemma WholeGroups(fs: seq<string>, k: nat, n: nat, line: string, sink: Sink)
    requires |fs| == 4 * k + n && n < 4
    ensures Processed(fs, k, line, sink) == ProcessGroups(Groups(fs), line, sink)
  {
    GroupCount(fs, k, n);
    ProcessedGroups(fs, k, line, sink);
    assert Groups(fs)[..k] == Groups(fs);
  }

  lemma LoopExit(split: seq<string>, b: int, k: nat, n: nat, w: Writes, line: string, sink: Sink)
    requires 3 <= b && |split| <= b && b - 3 <= |Data(split)| && b - 3 == 4 * k + n && n < 4
    requires w == Processed(Data(split), k, line, sink)
    ensures w == ProcessGroups(Groups(Data(split)), line, sink)
  {
    WholeGroups(Data(split), k, n, line, sink);
  }

  /** Once a group has ended in an exception, the writes of all the groups are those up to it. */
  lemma FailedGroup(fs: seq<string>, k: nat, line: string, sink: Sink)
    requires 4 * k + 4 <= |fs| && Processed(fs, k + 1, line, sink).failure.Some?
    ensures Processed(fs, k + 1, line, sink) == ProcessGroups(Groups(fs), line, sink)
  {
    ProcessedGroups(fs, k + 1, line, sink);
    Stopped(Groups(fs), k + 1, line, sink);
  }

  /** Decode the `k`-th group and add its writes to those of the groups before it; an exception ends the writes. */
  method RecordGroup(ghost fs: seq<string>, ghost k: nat, record: string, line: string, sink: Sink, raw: seq<string>, rows: seq<Record>)
    returns (raw': seq<string>, rows': seq<Record>, failure: Option<Failure>)
    requires 4 * k + 4 <= |fs| && record == Appended(fs, 4 * k, 4)
    requires Writes(raw, rows, None) == Processed(fs, k, line, sink)
    ensures failure.None? ==> Writes(raw', rows', None) == Processed(fs, k + 1, line, sink)
    ensures failure.Some? ==> Writes(raw', rows', failure) == ProcessGroups(Groups(fs), line, sink)
  {
    var e := DecodeGroup(record, line, sink);
    ProcessedStep(fs, k, line, sink);
    raw', rows', failure := raw + e.raw, rows + e.rows, e.failure;
    if failure.Some? {
      FailedGroup(fs, k, line, sink);
    }
  }

  /** The record loop of mode 1: append fields to a record builder, and decode it at every fourth. */
  method DecodeRecords(split: seq<string>, line: string, sink: Sink) returns (w: Writes)
    ensures w == ProcessGroups(Groups(Data(split)), line, sink)
  {
    ghost var fs := Data(split);
    var raw: seq<string> := [];
    var rows: seq<Record> := [];
    var fourByteNum := 0;
    var record := "";
    var b := 3;
    ghost var done: nat := 0;
    while b < |split|
      invariant 3 <= b && b - 3 <= |fs|
      invariant b - 3 == 4 * done + fourByteNum && 0 <= fourByteNum < 4
      invariant record == Appended(fs, 4 * done, fourByteNum)
      invariant Writes(raw, rows, None) == Processed(fs, done, line, sink)
    {
      assert fs[b - 3] == split[b];
      record := record + split[b];
      assert record == Appended(fs, 4 * done, fourByteNum + 1);
      fourByteNum := fourByteNum + 1;
      if fourByteNum == 4 {
        fourByteNum := 0;
        var failure;
        raw, rows, failure := RecordGroup(fs, done, record, line, sink, raw, rows);
        if failure.Some? {
          return Writes(raw, rows, failure);
        }
        record := "";
        done := done + 1;
      }
      b := b + 1;
    }
    LoopExit(split, b, done, fourByteNum, Writes(raw, rows, None), line, sink);
    w := Writes(raw, rows, None);
  }

  // ---------------------------------------------------------------------------
  // What the writers receive

  /** Writers that are not open write nothing, whatever the groups. */
  lemma {:induction false} SilentSink(gs: seq<string>, line: string, sink: Sink)
    requires sink != Open
    ensures ProcessGroups(gs, line, sink).raw == [] && ProcessGroups(gs, line, sink).rows == []
  {
    if gs != [] {
      SilentSink(gs[..|gs| - 1], line, sink);
    }
  }

  /** Writers that were never opened make the first decodable group fail. */
  lemma MissingSinkFails(gs: seq<string>, line: string)
    requires gs != [] && Decodable(gs[0])
    ensures ProcessGroups(gs, line, Missing).failure == Some(NoSink)
  {
    assert gs[..1][..0] == [];
    Stopped(gs, 1, line, Missing);
  }

  /** The records decoded from groups that all decode. */
  function Records(gs: seq<string>): (rs: seq<Record>)
    requires forall k :: 0 <= k < |gs| ==> Decodable(gs[k])
    ensures |rs| == |gs|
  {
    seq(|gs|, k requires 0 <= k < |gs| && Decodable(gs[k]) => DecodeRecord(DecodeHex(gs[k])))
  }

  /** The records with fix code 2, in order. */
  function FixTwo(rs: seq<Record>): (r: seq<Record>)
    ensures |r| <= |rs|
    ensures forall x :: x in r ==> x in rs && x.fix == 2
    ensures forall x :: x in rs && x.fix == 2 ==> x in r
  {
    if rs == [] then []
    else FixTwo(rs[..|rs| - 1]) + (if rs[|rs| - 1].fix == 2 then [rs[|rs| - 1]] else [])
  }

  /** `n` copies of a line. */
  function Repeat(line: string, n: nat): (r: seq<string>)
    ensures |r| == n && forall x :: x in r ==> x == line
  {
    if n == 0 then [] else Repeat(line, n - 1) + [line]
  }

  /** The records of all groups are those of all but the last, then the last one's. */
  lemma RecordsStep(gs: seq<string>)
    requires gs != [] && forall k :: 0 <= k < |gs| ==> Decodable(gs[k])
    ensures Records(gs) == Records(gs[..|gs| - 1]) + [DecodeRecord(DecodeHex(gs[|gs| - 1]))]
  {
    var n := |gs| - 1;
    assert Records(gs)[..n] == Records(gs[..n]);
  }

  /** Filtering one more record. */
  lemma FixTwoStep(rs: seq<Record>, r: Record)
    ensures FixTwo(rs + [r]) == FixTwo(rs) + (if r.fix == 2 then [r] else [])
  {
    assert (rs + [r])[..|rs|] == rs;
  }

  /** With open writers and groups that all decode: one raw line per group and one row per record with fix code 2. */
  lemma {:induction false} OpenSinkWrites(gs: seq<string>, line: string)
    requires forall k :: 0 <= k < |gs| ==> Decodable(gs[k])
    ensures ProcessGroups(gs, line, Open) == Writes(Repeat(line, |gs|), FixTwo(Records(gs)), None)
  {
    if gs != [] {
      var n := |gs| - 1;
      var before := ProcessGroups(gs[..n], line, Open);
      OpenSinkWrites(gs[..n], line);
      var r := DecodeRecord(DecodeHex(gs[n]));
      var e := GroupEffect(gs[n], line, Open);
      assert e == Writes([line], if r.fix == 2 then [r] else [], None);
      RecordsStep(gs);
      FixTwoStep(Records(gs[..n]), r);
      assert ProcessGroups(gs, line, Open) == Then(before, e);
    }
  }

  /** A parser built for one line never adds to the files: it leaves them as they were or, on mode 0, empties them. */
  lemma FreshParserOnlyTruncates(files: Log, line: string)
    ensures FreshParser(files, line).0 in {Log(Missing, files.raw, files.rows), Log(Missing, [], [])}
  {
    match LineFields(line)
    case None =>
    case Some(split) =>
      SilentSink(Groups(Data(split)), line, Missing);
      assert files.raw + [] == files.raw && files.rows + [] == files.rows;
  }

  /** ... and it throws on every mode-2 line and on every mode-1 line whose first record decodes. */
  lemma FreshParserFails(files: Log, line: string, split: seq<string>)
    requires LineFields(line) == Some(split) && split[0] == "$PMTKLOX" && |split| >= 2
    requires split[1] == "2" || (split[1] == "1" && |split| >= 7 && Decodable(split[3] + split[4] + split[5] + split[6]))
    ensures FreshParser(files, line).1 == Some(NoSink)
  {
    if split[1] == "1" {
      var gs := Groups(Data(split));
      assert gs[0] == split[3] + split[4] + split[5] + split[6];
      MissingSinkFails(gs, line);
    }
  }

  /** With open writers, a mode-1 line whose groups all decode appends one raw line per group and one row per record with fix code 2, and keeps the writers open. */
  lemma OpenSessionRecords(log: Log, line: string, split: seq<string>)
    requires log.sink == Open && LineFields(line) == Some(split)
    requires split[0] == "$PMTKLOX" && |split| >= 2 && split[1] == "1"
    requires forall k :: 0 <= k < |Groups(Data(split))| ==> Decodable(Groups(Data(split))[k])
    ensures Feed(log, line).1 == None
    ensures Feed(log, line).0 == Log(Open, log.raw + Repeat(line, |Groups(Data(split))|), log.rows + FixTwo(Records(Groups(Data(split)))))
  {
    OpenSinkWrites(Groups(Data(split)), line);
  }

  /** Mode 0 starts both files afresh with open writers, mode 2 appends the line and closes them. */
  lemma SessionLifecycle(log: Log, line: string, split: seq<string>)
    requires LineFields(line) == Some(split) && split[0] == "$PMTKLOX" && |split| >= 2
    ensures split[1] == "0" ==> Feed(log, line) == (Log(Open, [line], []), None)
    ensures split[1] == "2" && log.sink == Open ==> Feed(log, line) == (Log(Closed, log.raw + [line], log.rows), None)
  {
  }

  /** Once closed, the files change only when a mode-0 line opens them again. */
  lemma ClosedSessionIgnores(log: Log, line: string)
    requires log.sink == Closed
    ensures Feed(log, line).0.sink == Closed ==> Feed(log, line).0 == log
    ensures Feed(log, line).0.sink != Closed ==> Feed(log, line).0 == Log(Open, [line], [])
  {
    match LineFields(line)
    case None =>
    case Some(split) =>
      SilentSink(Groups(Data(split)), line, Closed);
      assert log.raw + [] == log.raw && log.rows + [] == log.rows;
  }

  /** A line that is not a `$PMTKLOX` line changes nothing. */
  lemma OtherLinesIgnored(log: Log, line: string, split: seq<string>)
    requires LineFields(line) == Some(split) && split[0] != "$PMTKLOX"
    ensures Feed(log, line) == (log, None)
  {
  }
}

/** The 32-bit float codec: the simulator's printer and the two hand-written Comet parsers.
    A float is its bit pattern (section 3.4 of IEEE 754-2019). */
module CometFloat {
  import opened Basics
  import opened AsciiText
  import opened HexCodec

  const ERROR_PREFIX: string := "ff8100"
  const ERROR_PATTERN: int := 0xFF8100

  datatype HexFloatError = MeasurementError | NotHex | WrongLength

  type Parsed = Result<UInt32, HexFloatError>

  function BytesOf(bits: UInt32): (bytes: seq<Byte>)
    ensures |bytes| == 4
  {
    [bits / 0x100_0000, bits / 0x1_0000 % 256, bits / 256 % 256, bits % 256]
  }

  function BigEndian(bytes: seq<Byte>): UInt32
    requires |bytes| == 4
  {
    bytes[0] as int * 0x100_0000 + bytes[1] as int * 0x1_0000 + bytes[2] as int * 256 + bytes[3] as int
  }

  /** float_to_hex: struct.pack(">f", value).hex(). */
  function FloatToHex(bits: UInt32): string {
    EncodeHex(BytesOf(bits))
  }

  function Canonical(value: string): string {
    TrimPrefix(Normalize(value), "0x")
  }

  function DecodeFloat(raw: string): Parsed {
    match DecodeHex(raw)
    case None => Err(NotHex)
    case Some(bytes) => if |bytes| != 4 then Err(WrongLength) else Ok(BigEndian(bytes))
  }

  /** ulogger's parseHexFloat, after asString. */
  function ULoggerHexFloat(value: string): Parsed {
    var raw := Canonical(value);
    if HasPrefix(raw, ERROR_PREFIX) then Err(MeasurementError) else DecodeFloat(raw)
  }

  /** websensor's isMeasurementError. */
  predicate IsMeasurementError(raw: string) {
    HasPrefix(Normalize(raw), ERROR_PREFIX)
  }

  /** websensor's parseHexFloat. */
  function WebsensorHexFloat(value: string): Parsed {
    var raw := Canonical(value);
    if IsMeasurementError(raw) then Err(MeasurementError) else DecodeFloat(raw)
  }

  datatype Reading = Value(bits: UInt32) | Skipped | Rejected(error: HexFloatError)

  /** What websensor's parseChannel makes of an enabled, named channel's value: an error
      reading is skipped, any other bad value rejects the whole payload. */
  function WebsensorReading(value: string): Reading {
    match WebsensorHexFloat(value)
    case Ok(bits) => Value(bits)
    case Err(error) => if IsMeasurementError(value) then Skipped else Rejected(error)
  }

  /** All exponent bits set and a fraction that is not zero. */
  predicate IsNaN(bits: UInt32) {
    bits / 0x80_0000 % 256 == 255 && bits % 0x80_0000 != 0
  }

  lemma SplitBytes(b0: Byte, b1: Byte, b2: Byte, b3: Byte, n: int)
    requires n == b0 as int * 0x100_0000 + b1 as int * 0x1_0000 + b2 as int * 256 + b3 as int
    ensures n / 0x100_0000 == b0 && n / 0x1_0000 % 256 == b1 && n / 256 % 256 == b2 && n % 256 == b3
    ensures n / 256 == b0 as int * 0x1_0000 + b1 as int * 256 + b2 as int
  {
    assert n / 256 == b0 as int * 0x1_0000 + b1 as int * 256 + b2 as int;
    assert n / 0x1_0000 == b0 as int * 256 + b1 as int;
  }

  lemma BytesOfBigEndian(bytes: seq<Byte>)
    requires |bytes| == 4
    ensures BytesOf(BigEndian(bytes)) == bytes
  {
    SplitBytes(bytes[0], bytes[1], bytes[2], bytes[3], BigEndian(bytes));
  }

  lemma BigEndianOfBytes(bits: UInt32)
    ensures BigEndian(BytesOf(bits)) == bits
  {
    assert bits / 0x1_0000 == bits / 256 / 256 && bits / 0x100_0000 == bits / 0x1_0000 / 256;
  }

  lemma EncodedBytes(bytes: seq<Byte>)
    requires |bytes| == 4
    ensures EncodeHex(bytes)[..6] == TwoDigits(bytes[0]) + TwoDigits(bytes[1]) + TwoDigits(bytes[2])
  {
    var tail := bytes[1..];
    assert tail[1..] == bytes[2..] && bytes[2..][1..] == bytes[3..];
    assert EncodeHex(bytes) == TwoDigits(bytes[0]) + EncodeHex(tail);
    assert EncodeHex(tail) == TwoDigits(bytes[1]) + EncodeHex(bytes[2..]);
    assert EncodeHex(bytes[2..]) == TwoDigits(bytes[2]) + EncodeHex(bytes[3..]);
  }

  function TwoDigits(b: Byte): (s: string)
    ensures |s| == 2
  {
    [LowerDigit(b / 16), LowerDigit(b % 16)]
  }

  lemma BytePrints(b: Byte)
    ensures TwoDigits(b) == "ff" <==> b == 0xFF
    ensures TwoDigits(b) == "81" <==> b == 0x81
    ensures TwoDigits(b) == "00" <==> b == 0
  {
    assert b == 16 * (b / 16) + b % 16;
    var s := TwoDigits(b);
    assert DigitValue(s[0]) == b / 16 && DigitValue(s[1]) == b % 16;
    assert LowerDigit(15) == 'f' && LowerDigit(8) == '8' && LowerDigit(1) == '1' && LowerDigit(0) == '0';
  }

  lemma ErrorPrefixMeansErrorPattern(bits: UInt32)
    ensures HasPrefix(FloatToHex(bits), ERROR_PREFIX) <==> bits / 256 == ERROR_PATTERN
  {
    var bytes := BytesOf(bits);
    EncodedBytes(bytes);
    BytePrints(bytes[0]);
    BytePrints(bytes[1]);
    BytePrints(bytes[2]);
    SixDigits(FloatToHex(bits), TwoDigits(bytes[0]), TwoDigits(bytes[1]), TwoDigits(bytes[2]));
    BigEndianOfBytes(bits);
    SplitBytes(bytes[0], bytes[1], bytes[2], bytes[3], bits);
  }

  lemma SixDigits(text: string, a: string, b: string, c: string)
    requires |a| == |b| == |c| == 2 && |text| >= 6 && text[..6] == a + b + c
    ensures HasPrefix(text, ERROR_PREFIX) <==> a == "ff" && b == "81" && c == "00"
  {
    assert HasPrefix(text, ERROR_PREFIX) <==> text[..6] == ERROR_PREFIX;
    assert a == text[..6][..2] && b == text[..6][2..4] && c == text[..6][4..];
    assert ERROR_PREFIX[..2] == "ff" && ERROR_PREFIX[2..4] == "81" && ERROR_PREFIX[4..] == "00";
    assert "ff" + "81" + "00" == ERROR_PREFIX;
  }

  /** One "0x" in front of the trimmed lower-case text is dropped, and nothing else. */
  lemma CanonicalDropsOnePrefix(value: string)
    ensures var text := ToLower(TrimSpace(value));
            if "0x" <= text then text == "0x" + Canonical(value) else Canonical(value) == text
  {
  }

  lemma CanonicalIsLower(value: string)
    ensures ToLower(Canonical(value)) == Canonical(value)
  {
    LowerKeepsSpaces(TrimSpace(value));
    var n := Normalize(value);
    assert ToLower(n) == n;
    if HasPrefix(n, "0x") {
      assert ToLower(n[2..]) == ToLower(n)[2..];
    }
  }

  lemma DecodeFloatInverts(raw: string, bits: UInt32)
    requires ToLower(raw) == raw
    ensures DecodeFloat(raw) == Ok(bits) <==> raw == FloatToHex(bits)
  {
    DecodeOfEncode(BytesOf(bits));
    EncodeOfDecode(raw);
    BigEndianOfBytes(bits);
    if DecodeFloat(raw).Ok? {
      BytesOfBigEndian(DecodeHex(raw).value);
    }
  }

  /** The exact set of accepted texts: a value is read as these bits precisely when its
      canonical form is what the simulator prints for them and they are no error pattern. */
  lemma ULoggerAcceptsExactlyPrinted(value: string, bits: UInt32)
    ensures ULoggerHexFloat(value) == Ok(bits)
       <==> Canonical(value) == FloatToHex(bits) && bits / 256 != ERROR_PATTERN
  {
    CanonicalIsLower(value);
    DecodeFloatInverts(Canonical(value), bits);
    ErrorPrefixMeansErrorPattern(bits);
  }

  lemma PrintedIsCanonical(bits: UInt32)
    ensures Canonical(FloatToHex(bits)) == FloatToHex(bits)
  {
    hide EncodeHex, DecodeHex, BytesOf, TrimSpace;
    var s := FloatToHex(bits);
    var bytes := BytesOf(bits);
    DecodeOfEncode(bytes);
    EncodeOfDecode(s);
    assert ToLower(s) == s;
    assert Tight(s);
    TrimSpaceOfPadded([], s, []);
    assert [] + s + [] == s;
    assert s[1] != 'x' by { assert IsHexDigit(s[1]); }
  }

  /** Simulator to ulogger: the same 32 bits come back exactly when the top 24 bits are
      not the error pattern. */
  lemma FloatRoundTrip(bits: UInt32)
    ensures ULoggerHexFloat(FloatToHex(bits)) == Ok(bits) <==> bits / 256 != ERROR_PATTERN
    ensures bits / 256 == ERROR_PATTERN ==> ULoggerHexFloat(FloatToHex(bits)) == Err(MeasurementError)
  {
    PrintedIsCanonical(bits);
    ULoggerAcceptsExactlyPrinted(FloatToHex(bits), bits);
    ErrorPrefixMeansErrorPattern(bits);
  }

  /** Every pattern taken for a device error is a NaN, so no finite value and no infinity is lost. */
  lemma ErrorPatternsAreNaN(bits: UInt32)
    requires ULoggerHexFloat(FloatToHex(bits)) != Ok(bits)
    ensures IsNaN(bits)
  {
    FloatRoundTrip(bits);
    assert bits / 0x80_0000 == bits / 256 / 0x8000;
    assert bits == 256 * ERROR_PATTERN + bits % 256;
  }

  /** A text with an error prefix has no padding in front, and one without it that gains it
      by trimming starts with a space, which no digit string does. */
  lemma RetrimmingOnlyAffectsRejected(raw: string)
    requires ToLower(raw) == raw
    ensures HasPrefix(raw, ERROR_PREFIX) ==> IsMeasurementError(raw)
    ensures IsMeasurementError(raw) && !HasPrefix(raw, ERROR_PREFIX) ==>
              raw != "" && IsSpace(raw[0]) && DecodeFloat(raw) == Err(NotHex)
  {
    hide TrimSpace, ToLower, DecodeHex;
    var left, right := TrimSpaceSplits(raw);
    var core := TrimSpace(raw);
    TrimAndLowerCommute(raw);
    if left == [] {
      assert raw == core + right;
      ErrorPrefixReachesCore(core, right);
    } else {
      assert raw[0] == left[0];
      DecodeDomain(raw);
    }
  }

  lemma ErrorPrefixReachesCore(core: string, right: string)
    requires AllSpace(right)
    ensures HasPrefix(core + right, ERROR_PREFIX) <==> HasPrefix(core, ERROR_PREFIX)
  {
    var raw := core + right;
    if |core| < 6 && right != [] {
      assert raw[|core|] == right[0];
      assert IsSpace(raw[|core|]) && !IsSpace(ERROR_PREFIX[|core|]);
    }
  }

  /** The two parsers accept the same texts with the same bits, for every input; they even
      report the same error unless a space follows the optional "0x". */
  lemma ParsersAgree(value: string)
    ensures ULoggerHexFloat(value).Ok? <==> WebsensorHexFloat(value).Ok?
    ensures ULoggerHexFloat(value).Ok? ==> ULoggerHexFloat(value) == WebsensorHexFloat(value)
    ensures ULoggerHexFloat(value) != WebsensorHexFloat(value) ==>
              && ULoggerHexFloat(value) == Err(NotHex) && WebsensorHexFloat(value) == Err(MeasurementError)
              && Canonical(value) != "" && IsSpace(Canonical(value)[0])
  {
    CanonicalIsLower(value);
    var raw := Canonical(value);
    RetrimmingOnlyAffectsRejected(raw);
  }

  /** Letter case, padding and one "0x" in front make no difference to either parser. */
  lemma SpellingDoesNotMatter(left: string, value: string, right: string)
    requires AllSpace(left) && AllSpace(right)
    ensures ULoggerHexFloat(left + value + right) == ULoggerHexFloat(value)
    ensures WebsensorHexFloat(left + value + right) == WebsensorHexFloat(value)
    ensures ULoggerHexFloat(ToLower(value)) == ULoggerHexFloat(value)
    ensures WebsensorHexFloat(ToLower(value)) == WebsensorHexFloat(value)
    ensures value != "" && !IsSpace(value[0]) && !HasPrefix(ToLower(value), "0x") ==>
              && ULoggerHexFloat("0x" + value) == ULoggerHexFloat(value)
              && WebsensorHexFloat("0x" + value) == WebsensorHexFloat(value)
  {
    NormalizeIgnoresPaddingAndCase(left, value, right);
    if value != "" && !IsSpace(value[0]) && !HasPrefix(ToLower(value), "0x") {
      OnePrefixIsDropped(value);
    }
  }

  lemma UnpaddedInFront(value: string) returns (right: string)
    requires value != "" && !IsSpace(value[0])
    ensures AllSpace(right) && value == TrimSpace(value) + right
    ensures TrimSpace(value) != "" && Tight(TrimSpace(value))
  {
    assert TrimLeft(value) == value;
    right := TrimRightSplits(value);
    TrimRightKeepsSolid(value);
  }

  lemma {:induction false} TrimRightKeepsSolid(s: string)
    requires s != "" && !IsSpace(s[0])
    ensures TrimRight(s) != "" && TrimRight(s)[0] == s[0]
  {
    if |s| > 1 && IsSpace(s[|s| - 1]) { TrimRightKeepsSolid(s[..|s| - 1]); }
  }

  lemma PrefixedIsTight(core: string)
    requires core != "" && Tight(core)
    ensures Tight("0x" + core)
    ensures ToLower("0x" + core) == "0x" + ToLower(core)
    ensures TrimPrefix("0x" + ToLower(core), "0x") == ToLower(core)
  {
    var prefixed := "0x" + core;
    assert prefixed[|prefixed| - 1] == core[|core| - 1];
    assert ("0x" + ToLower(core))[2..] == ToLower(core);
  }

  lemma OnePrefixIsDropped(value: string)
    requires value != "" && !IsSpace(value[0]) && !HasPrefix(ToLower(value), "0x")
    ensures Canonical("0x" + value) == Canonical(value)
  {
    hide TrimSpace, IsSpace, LowerChar;
    var right := UnpaddedInFront(value);
    var core := TrimSpace(value);
    TrimOfPrefixed(value, core, right);
    PrefixedIsTight(core);
    assert Canonical("0x" + value) == ToLower(core);
    assert !HasPrefix(ToLower(core), "0x") by {
      assert ToLower(value) == ToLower(core) + ToLower(right);
    }
  }

  lemma TrimOfPrefixed(value: string, core: string, right: string)
    requires core != "" && Tight(core) && AllSpace(right) && value == core + right
    ensures TrimSpace("0x" + value) == "0x" + core
  {
    hide TrimSpace, IsSpace, ToLower;
    PrefixedIsTight(core);
    assert "0x" + value == [] + ("0x" + core) + right;
    TrimSpaceOfPadded([], "0x" + core, right);
  }

  /** An error reading, one that parseHexFloat takes for a device error, is skipped as
      intended exactly when the device wrote it without the "0x" prefix; with the prefix the
      whole payload is rejected. */
  lemma ErrorReadingSkippedIffUnprefixed(value: string)
    requires WebsensorHexFloat(value) == Err(MeasurementError)
    ensures WebsensorReading(value) == Skipped <==> !HasPrefix(Normalize(value), "0x")
    ensures WebsensorReading(value).Rejected? <==> HasPrefix(Normalize(value), "0x")
  {
    hide TrimSpace, ToLower;
    NormalizeIgnoresPaddingAndCase("", value, "");
    var n := Normalize(value);
    assert n != [] && HasPrefix(n, "0x") ==> n[0] == '0';
    assert HasPrefix(n, ERROR_PREFIX) ==> n[0] == 'f';
  }

  /** Everything parseChannel can make of a value, by its text alone: the printed bits of a
      float are that value; an error pattern is skipped without "0x" and rejects the payload
      with it; of the rest an even number of hex digits has the wrong length, and anything else
      is not hexadecimal. */
  lemma WebsensorReadingByText(value: string)
    ensures forall bits: UInt32 ::
              WebsensorReading(value) == Value(bits) <==>
                Canonical(value) == FloatToHex(bits) && bits / 256 != ERROR_PATTERN
    ensures WebsensorReading(value).Value? ==> |Canonical(value)| == 8 && AllHex(Canonical(value))
    ensures var raw := Canonical(value);
            && (IsMeasurementError(raw) ==>
                  WebsensorReading(value) == if HasPrefix(Normalize(value), "0x") then Rejected(MeasurementError)
                                             else Skipped)
            && (!IsMeasurementError(raw) && (|raw| % 2 != 0 || !AllHex(raw)) ==>
                  WebsensorReading(value) == Rejected(NotHex))
            && (!IsMeasurementError(raw) && |raw| % 2 == 0 && AllHex(raw) ==>
                  if |raw| == 8 then WebsensorReading(value).Value?
                  else WebsensorReading(value) == Rejected(WrongLength))
  {
    hide TrimSpace, ToLower, DecodeHex, FloatToHex, AllHex;
    var raw := Canonical(value);
    EncodeOfDecode(raw);
    ParsersAgree(value);
    forall bits: UInt32
      ensures ULoggerHexFloat(value) == Ok(bits) <==> raw == FloatToHex(bits) && bits / 256 != ERROR_PATTERN
    {
      ULoggerAcceptsExactlyPrinted(value, bits);
    }
    if WebsensorHexFloat(value) == Err(MeasurementError) {
      ErrorReadingSkippedIffUnprefixed(value);
    } else {
      UnskippedByText(value);
    }
  }

  lemma UnskippedByText(value: string)
    requires !IsMeasurementError(Canonical(value))
    ensures !IsMeasurementError(value) || HasPrefix(Normalize(value), "0x")
    ensures !WebsensorReading(value).Skipped?
  {
    hide TrimSpace, ToLower;
    NormalizeIgnoresPaddingAndCase("", value, "");
    var n := Normalize(value);
    if HasPrefix(n, "0x") {
      assert n[0] == '0' && ERROR_PREFIX[0] == 'f';
    }
  }
}

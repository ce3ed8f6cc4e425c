/** Device time: Python's f"{n:08X}" in the simulator against strconv.ParseInt(raw, 16, 64). */
module CometTime {
  import opened Basics
  import opened AsciiText
  import opened HexCodec

  const SECONDS_2000_TO_UNIX: int := 946684800
  const FIELD_WIDTH: nat := 8

  function UpperDigit(v: int): (c: char)
    requires 0 <= v < 16
    ensures IsHexDigit(c) && DigitValue(c) == v && c != '-' && c != '+'
  {
    if v < 10 then ('0' as int + v) as char else ('A' as int + v - 10) as char
  }

  function Digits(n: nat): (s: string)
    ensures s != "" && AllHex(s)
  {
    if n < 16 then [UpperDigit(n)] else Digits(n / 16) + [UpperDigit(n % 16)]
  }

  function Zeros(n: nat): (s: string)
    ensures |s| == n && AllHex(s)
  {
    seq(n, _ => '0')
  }

  /** Zero padding counts the sign: a negative number is '-' and at least seven digits. */
  function FormatHex8(n: int): string {
    var sign := if n < 0 then "-" else "";
    var digits := Digits(if n < 0 then -n else n);
    sign + Zeros(Max(FIELD_WIDTH - |sign| - |digits|, 0)) + digits
  }

  /** comet_time_hex for a whole Unix second. */
  function CometTimeHex(unixSecond: int): string {
    FormatHex8(unixSecond - SECONDS_2000_TO_UNIX)
  }

  function HexValue(s: string): nat
    requires AllHex(s)
  {
    if s == "" then 0 else 16 * HexValue(s[..|s| - 1]) + DigitValue(s[|s| - 1])
  }

  /** strconv.ParseInt(raw, 16, 64); None stands for its syntax and range errors. */
  function ParseInt16(raw: string): Option<Int64> {
    if raw == "" then None
    else
      var signed := raw[0] == '+' || raw[0] == '-';
      var digits := if signed then raw[1..] else raw;
      if digits == "" || !AllHex(digits) then None
      else
        var magnitude: int := HexValue(digits);
        if raw[0] == '-' then (if magnitude <= TWO_TO_63 then Some(-magnitude) else None)
        else if magnitude < TWO_TO_63 then Some(magnitude) else None
  }

  /** What encoding/json leaves in an `any`: a string, a number (already truncated to int64), or neither. */
  datatype JsonValue = JsonString(text: string) | JsonNumber(whole: Int64) | JsonOther

  function DecimalDigits(n: nat): string {
    if n < 10 then [('0' as int + n) as char] else DecimalDigits(n / 10) + [('0' as int + n % 10) as char]
  }

  function AsString(value: JsonValue): Option<string> {
    match value
    case JsonString(text) => Some(text)
    case JsonNumber(n) =>
      var whole: int := n;
      Some(if whole < 0 then "-" + DecimalDigits(-whole) else DecimalDigits(whole))
    case JsonOther => None
  }

  /** parseDeviceTime, giving the Unix second of the result. */
  function ParseDeviceTime(value: JsonValue): Option<Int64> {
    match AsString(value)
    case None => None
    case Some(raw) =>
      match ParseInt16(raw)
      case None => None
      case Some(seconds) => Some(WrapInt64(SECONDS_2000_TO_UNIX + seconds))
  }

  // ---- The epoch ----

  predicate IsLeap(year: nat) {
    year % 4 == 0 && (year % 100 != 0 || year % 400 == 0)
  }

  /** The days of the years from first up to, not including, last. */
  function DaysOfYears(first: nat, last: nat): nat
    requires first <= last
    decreases last - first
  {
    if first == last then 0 else DaysOfYears(first, last - 1) + (if IsLeap(last - 1) then 366 else 365)
  }

  lemma {:induction false} DaysSince1970(year: nat)
    requires 1970 <= year <= 2000
    ensures DaysOfYears(1970, year) == 365 * (year - 1970) + (year - 1969) / 4
  {
    if year > 1970 { DaysSince1970(year - 1); }
  }

  /** The offset is the length of the years 1970 to 1999, leap days counted. */
  lemma OffsetIsThirtyYears()
    ensures SECONDS_2000_TO_UNIX == DaysOfYears(1970, 2000) * 24 * 60 * 60
  {
    DaysSince1970(2000);
  }

  lemma {:induction false} DigitsValue(n: nat)
    ensures HexValue(Digits(n)) == n
  {
    if n >= 16 {
      DigitsValue(n / 16);
      var s := Digits(n);
      assert s[..|s| - 1] == Digits(n / 16);
    } else {
      var s := Digits(n);
      assert s[..|s| - 1] == "";
    }
  }

  lemma {:induction false} LeadingZeros(k: nat, s: string)
    requires AllHex(s)
    ensures AllHex(Zeros(k) + s) && HexValue(Zeros(k) + s) == HexValue(s)
    decreases |s|, k
  {
    var t := Zeros(k) + s;
    if s != "" {
      assert t[..|t| - 1] == Zeros(k) + s[..|s| - 1];
      LeadingZeros(k, s[..|s| - 1]);
    } else if k > 0 {
      assert t[..|t| - 1] == Zeros(k - 1) + s;
      LeadingZeros(k - 1, s);
      assert t[|t| - 1] == '0';
    }
  }

  lemma ParseOfDigits(body: string)
    requires body != "" && AllHex(body)
    ensures ParseInt16(body) == if HexValue(body) < TWO_TO_63 then Some(HexValue(body)) else None
    ensures ParseInt16("-" + body) == var n: int := HexValue(body); if n <= TWO_TO_63 then Some(-n) else None
  {
    assert IsHexDigit(body[0]);
    assert ("-" + body)[1..] == body;
  }

  lemma {:induction false} CaseKeepsValue(body: string)
    requires AllHex(body)
    ensures AllHex(ToLower(body)) && HexValue(ToLower(body)) == HexValue(body)
  {
    hide DigitValue, IsHexDigit, LowerChar;
    var lower := ToLower(body);
    forall i | 0 <= i < |body| ensures IsHexDigit(lower[i]) && DigitValue(lower[i]) == DigitValue(body[i]) {
      LowerKeepsDigits(body[i]);
    }
    if body != "" {
      assert lower[..|lower| - 1] == ToLower(body[..|body| - 1]);
      CaseKeepsValue(body[..|body| - 1]);
    }
  }

  predicate Signed(raw: string) {
    raw != "" && (raw[0] == '-' || raw[0] == '+')
  }

  function Body(raw: string): string {
    if Signed(raw) then raw[1..] else raw
  }

  lemma ParseOfText(raw: string)
    ensures Body(raw) == "" || !AllHex(Body(raw)) ==> ParseInt16(raw) == None
    ensures Body(raw) != "" && AllHex(Body(raw)) ==>
              var magnitude: int := HexValue(Body(raw));
              var n := if raw[0] == '-' then -magnitude else magnitude;
              ParseInt16(raw) == if -TWO_TO_63 <= n < TWO_TO_63 then Some(n) else None
  {
  }

  /** Exactly the texts of an optional sign and at least one hex digit, in either case, are read,
      as that number of seconds from 2000, if it fits in 64 bits; no padding and no "0x" is
      accepted, and neither is a value that is no text and no number. */
  lemma DeviceTimeOfText(raw: string)
    ensures Body(raw) == "" || !AllHex(Body(raw)) ==> ParseDeviceTime(JsonString(raw)) == None
    ensures Body(raw) != "" && AllHex(Body(raw)) ==>
              var magnitude: int := HexValue(Body(raw));
              var n := if raw[0] == '-' then -magnitude else magnitude;
              && AllHex(ToLower(Body(raw))) && HexValue(ToLower(Body(raw))) == magnitude
              && ParseDeviceTime(JsonString(raw)) ==
                 if -TWO_TO_63 <= n < TWO_TO_63 then Some(WrapInt64(SECONDS_2000_TO_UNIX + n)) else None
    ensures ParseDeviceTime(JsonOther) == None
  {
    hide ParseInt16, HexValue, AllHex, ToLower, WrapInt64, Body;
    ParseOfText(raw);
    if AllHex(Body(raw)) { CaseKeepsValue(Body(raw)); }
  }

  lemma FormatSplits(n: int) returns (body: string)
    ensures FormatHex8(n) == if n < 0 then "-" + body else body
    ensures body != "" && AllHex(body) && HexValue(body) == if n < 0 then -n else n
  {
    hide HexValue, Digits, IsHexDigit;
    var sign := if n < 0 then "-" else "";
    var digits := Digits(if n < 0 then -n else n);
    var pad := Max(FIELD_WIDTH - |sign| - |digits|, 0);
    body := Zeros(pad) + digits;
    DigitsValue(if n < 0 then -n else n);
    LeadingZeros(pad, digits);
    assert FormatHex8(n) == sign + body;
    assert "" + body == body;
  }

  /** Parsing a printed number gives the number exactly when it fits in 64 bits, and an
      error otherwise; never a different number. */
  lemma FormatParse(n: int)
    ensures ParseInt16(FormatHex8(n)) == if -TWO_TO_63 <= n < TWO_TO_63 then Some(n) else None
  {
    var body := FormatSplits(n);
    ParseOfDigits(body);
  }

  /** Device time survives the trip exactly for the seconds whose offset from 2000 and whose
      own value both fit in int64, before 2000 and before 1970 included. */
  lemma TimeRoundTrip(unixSecond: int)
    ensures ParseDeviceTime(JsonString(CometTimeHex(unixSecond))) == Some(unixSecond)
       <==> SECONDS_2000_TO_UNIX - TWO_TO_63 <= unixSecond < TWO_TO_63
  {
    FormatParse(unixSecond - SECONDS_2000_TO_UNIX);
    WrapFixesInt64(unixSecond);
  }

  lemma {:induction false} DigitsLength(n: nat, k: nat)
    requires k >= 1 && n < Power16(k)
    ensures |Digits(n)| <= k
  {
    if k == 1 || n < 16 {
    } else {
      DigitsLength(n / 16, k - 1);
    }
  }

  function Power16(k: nat): (p: nat)
    ensures p >= 1
  {
    if k == 0 then 1 else 16 * Power16(k - 1)
  }

  /** For the first 2^32 seconds from 2000 on the field is exactly eight hex digits, as the
      device protocol has it. */
  lemma FieldIsEightDigits(unixSecond: int)
    requires 0 <= unixSecond - SECONDS_2000_TO_UNIX < TWO_TO_32
    ensures |CometTimeHex(unixSecond)| == 8 && AllHex(CometTimeHex(unixSecond))
  {
    assert Power16(4) == 0x1_0000;
    assert Power16(8) == TWO_TO_32;
    DigitsLength(unixSecond - SECONDS_2000_TO_UNIX, 8);
  }

  lemma {:induction false} DigitsShape(n: nat)
    ensures forall i :: 0 <= i < |Digits(n)| ==> !('a' <= Digits(n)[i] <= 'z')
    ensures n > 0 ==> Digits(n)[0] != '0'
  {
    if n >= 16 { DigitsShape(n / 16); }
  }

  /** The printed field in general: a minus sign exactly for negative numbers, upper-case digits,
      at least eight characters with the sign counted, and no zero in front beyond those eight. */
  lemma FieldShape(n: int)
    ensures var text := FormatHex8(n);
            && |text| >= 8
            && (n < 0 <==> text[0] == '-')
            && (forall i :: 0 <= i < |text| ==> !('a' <= text[i] <= 'z'))
            && (|text| > 8 ==> text[if n < 0 then 1 else 0] != '0')
  {
    hide DigitValue;
    DigitsShape(if n < 0 then -n else n);
    var sign := if n < 0 then "-" else "";
    var digits := Digits(if n < 0 then -n else n);
    var pad := Max(FIELD_WIDTH - |sign| - |digits|, 0);
    assert FormatHex8(n) == sign + Zeros(pad) + digits;
    ZerosAreZeros(pad);
    assert n == 0 ==> |digits| == 1;
    assert n >= 0 ==> FormatHex8(n)[0] == if pad > 0 then '0' else digits[0];
    assert digits[0] != '-';
  }

  lemma ZerosAreZeros(k: nat)
    ensures forall i :: 0 <= i < k ==> Zeros(k)[i] == '0'
  {
  }

  // ---- A time sent as a JSON number ----

  /** What a number means once its decimal digits are read as hexadecimal ones. */
  function DecimalAsHex(n: nat): nat {
    if n < 10 then n else 16 * DecimalAsHex(n / 10) + n % 10
  }

  lemma {:induction false} DecimalDigitsValue(n: nat)
    ensures DecimalDigits(n) != "" && AllHex(DecimalDigits(n)) && HexValue(DecimalDigits(n)) == DecimalAsHex(n)
  {
    var s := DecimalDigits(n);
    if n >= 10 {
      DecimalDigitsValue(n / 10);
      assert s[..|s| - 1] == DecimalDigits(n / 10);
    } else {
      assert s[..|s| - 1] == "";
    }
  }

  lemma {:induction false} HexReadingIsLarger(n: nat)
    ensures DecimalAsHex(n) >= n
    ensures n >= 10 ==> DecimalAsHex(n) > n
  {
    if n >= 10 { HexReadingIsLarger(n / 10); }
  }

  lemma NumberAsHex(n: Int64)
    ensures var whole: int := n; var h: int := DecimalAsHex(if whole < 0 then -whole else whole);
            AsString(JsonNumber(n)).Some? &&
            ParseInt16(AsString(JsonNumber(n)).value) ==
              if n < 0 then (if h <= TWO_TO_63 then Some(-h) else None) else if h < TWO_TO_63 then Some(h) else None
  {
    var whole: int := n;
    var m := if whole < 0 then -whole else whole;
    DecimalDigitsValue(m);
    ParseOfDigits(DecimalDigits(m));
  }

  /** A time given as a JSON number is turned to decimal text and then read as hexadecimal:
      it is the intended second exactly for one-digit numbers. */
  lemma NumericTimeIntendedIff(n: Int64)
    ensures ParseDeviceTime(JsonNumber(n)) == Some(SECONDS_2000_TO_UNIX + n as int) <==> -10 < n < 10
  {
    hide ParseInt16, AsString;
    var whole: int := n;
    var m := if whole < 0 then -whole else whole;
    NumberAsHex(n);
    HexReadingIsLarger(m);
    var h: int := DecimalAsHex(m);
    if h <= TWO_TO_63 { WrapIsInjectiveNearby(SECONDS_2000_TO_UNIX, if whole < 0 then -h else h, whole); }
  }

  lemma WrapIsInjectiveNearby(base: int, a: int, b: int)
    requires -TWO_TO_63 <= a <= TWO_TO_63 && -TWO_TO_63 <= b < TWO_TO_63 && 0 <= base < TWO_TO_32
    requires (a >= 0 && b >= 0) || (a <= 0 && b <= 0)
    ensures WrapInt64(base + a) == base + b ==> a == b
    ensures a == b && -10 < b < 10 ==> WrapInt64(base + a) == base + b
  {
  }
}

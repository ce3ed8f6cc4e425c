/** Base 16 (section 8 of RFC 4648): Go's hex.DecodeString against Python's bytes.hex(). */
module HexCodec {
  import opened Basics
  import opened AsciiText

  predicate IsHexDigit(c: char) {
    '0' <= c <= '9' || 'a' <= c <= 'f' || 'A' <= c <= 'F'
  }

  function DigitValue(c: char): (v: int)
    requires IsHexDigit(c)
    ensures 0 <= v < 16
  {
    if '0' <= c <= '9' then c as int - '0' as int
    else if 'a' <= c <= 'f' then c as int - 'a' as int + 10
    else c as int - 'A' as int + 10
  }

  function LowerDigit(v: int): (c: char)
    requires 0 <= v < 16
    ensures IsHexDigit(c) && DigitValue(c) == v && LowerChar(c) == c
  {
    if v < 10 then ('0' as int + v) as char else ('a' as int + v - 10) as char
  }

  function EncodeHex(bytes: seq<Byte>): (s: string)
    ensures |s| == 2 * |bytes|
  {
    if bytes == [] then ""
    else [LowerDigit(bytes[0] / 16), LowerDigit(bytes[0] % 16)] + EncodeHex(bytes[1..])
  }

  /** None is hex.DecodeString's error: an odd length or a character that is no digit. */
  function DecodeHex(s: string): Option<seq<Byte>> {
    if s == "" then Some([])
    else if |s| == 1 || !IsHexDigit(s[0]) || !IsHexDigit(s[1]) then None
    else match DecodeHex(s[2..])
      case None => None
      case Some(rest) => Some([16 * DigitValue(s[0]) + DigitValue(s[1])] + rest)
  }

  predicate AllHex(s: string) {
    forall i :: 0 <= i < |s| ==> IsHexDigit(s[i])
  }

  /** Whatever the printer writes, the decoder reads back, for byte strings of any length. */
  lemma {:induction false} DecodeOfEncode(bytes: seq<Byte>)
    ensures DecodeHex(EncodeHex(bytes)) == Some(bytes)
  {
    if bytes != [] {
      DecodeOfEncode(bytes[1..]);
      assert EncodeHex(bytes)[2..] == EncodeHex(bytes[1..]);
      assert bytes == [bytes[0]] + bytes[1..];
    }
  }

  lemma LowerKeepsDigits(v: char)
    requires IsHexDigit(v)
    ensures LowerDigit(DigitValue(v)) == LowerChar(v)
  {
  }

  lemma EncodePair(high: char, low: char, rest: seq<Byte>)
    requires IsHexDigit(high) && IsHexDigit(low)
    ensures EncodeHex([16 * DigitValue(high) + DigitValue(low)] + rest)
         == [LowerChar(high), LowerChar(low)] + EncodeHex(rest)
  {
    hide DigitValue, LowerDigit, LowerChar;
    LowerKeepsDigits(high);
    LowerKeepsDigits(low);
    var bytes: seq<Byte> := [16 * DigitValue(high) + DigitValue(low)] + rest;
    assert bytes[1..] == rest;
  }

  lemma {:induction false} DecodeDomain(s: string)
    ensures DecodeHex(s).Some? <==> |s| % 2 == 0 && AllHex(s)
  {
    if |s| >= 2 {
      DecodeDomain(s[2..]);
      assert AllHex(s) <==> IsHexDigit(s[0]) && IsHexDigit(s[1]) && AllHex(s[2..]) by {
        assert s == [s[0], s[1]] + s[2..];
      }
    }
  }

  /** The decoder accepts exactly the even-length digit strings, and printing what it
      read gives the input back in lower case. */
  lemma {:induction false} EncodeOfDecode(s: string)
    ensures DecodeHex(s).Some? <==> |s| % 2 == 0 && AllHex(s)
    ensures DecodeHex(s).Some? ==> 2 * |DecodeHex(s).value| == |s| && EncodeHex(DecodeHex(s).value) == ToLower(s)
  {
    DecodeDomain(s);
    if |s| >= 2 && DecodeHex(s).Some? {
      EncodeOfDecode(s[2..]);
      var rest := DecodeHex(s[2..]).value;
      EncodePair(s[0], s[1], rest);
      assert ToLower(s) == [LowerChar(s[0]), LowerChar(s[1])] + ToLower(s[2..]);
    }
  }
}

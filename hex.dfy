/**
 * Base16 as Go's `encoding/hex` implements it (RFC 4648, section 8):
 * `EncodeToString` writes two lower-case digits per byte, high nibble
 * first; `DecodeString` accepts digits of either case, reports the first
 * character that is not a hex digit, and otherwise rejects an odd length.
 */
module Hex {
  import opened Wrappers
  import opened Bytes

  /** Why a decode failed: Go's `InvalidByteError` and `ErrLength`. */
  datatype DecodeError = InvalidByte | OddLength

  const LOWER_DIGITS: string := "0123456789abcdef"

  predicate IsHexDigit(c: char) {
    ('0' <= c <= '9') || ('a' <= c <= 'f') || ('A' <= c <= 'F')
  }

  predicate IsLowerHexDigit(c: char) {
    ('0' <= c <= '9') || ('a' <= c <= 'f')
  }

  /** Every character of `s` is a lower-case hex digit. */
  predicate IsLowerHex(s: string) {
    forall i :: 0 <= i < |s| ==> IsLowerHexDigit(s[i])
  }

  /** Every character of `s` is a hex digit of either case. */
  predicate AllHexDigits(s: string) {
    forall i :: 0 <= i < |s| ==> IsHexDigit(s[i])
  }

  /** The value of one hex digit. */
  function DigitValue(c: char): (v: nat)
    requires IsHexDigit(c)
    ensures v < 16
  {
    if '0' <= c <= '9' then c as int - '0' as int
    else if 'a' <= c <= 'f' then c as int - 'a' as int + 10
    else c as int - 'A' as int + 10
  }

  /** The lower-case digit for a nibble; DigitValue is its inverse. */
  function LowerDigit(v: nat): (c: char)
    requires v < 16
    ensures IsLowerHexDigit(c) && IsHexDigit(c)
    ensures DigitValue(c) == v
  {
    LOWER_DIGITS[v]
  }

  /** A hex digit folded to lower case. */
  function ToLowerDigit(c: char): (d: char)
    requires IsHexDigit(c)
    ensures IsLowerHexDigit(d) && DigitValue(d) == DigitValue(c)
    ensures IsLowerHexDigit(c) ==> d == c
  {
    if 'A' <= c <= 'F' then (c as int - 'A' as int + 'a' as int) as char else c
  }

  /** A string of hex digits folded to lower case. */
  function ToLower(s: string): (r: string)
    requires AllHexDigits(s)
    ensures |r| == |s| && IsLowerHex(r)
  {
    if s == [] then [] else [ToLowerDigit(s[0])] + ToLower(s[1..])
  }

  /** `hex.EncodeToString`. */
  function Encode(b: seq<Byte>): (s: string)
    ensures |s| == 2 * |b|
    ensures IsLowerHex(s)
  {
    if b == [] then []
    else [LowerDigit(b[0] / 16), LowerDigit(b[0] % 16)] + Encode(b[1..])
  }

  /** `hex.DecodeString`: pairs are read left to right, each digit checked in turn. */
  function Decode(s: string): (r: Result<seq<Byte>, DecodeError>)
  {
    if s == [] then Ok([])
    else if !IsHexDigit(s[0]) then Err(InvalidByte)
    else if |s| == 1 then Err(OddLength)
    else if !IsHexDigit(s[1]) then Err(InvalidByte)
    else
      match Decode(s[2..])
      case Ok(rest) => Ok([DigitValue(s[0]) * 16 + DigitValue(s[1])] + rest)
      case Err(e) => Err(e)
  }

  /** Decoding an encoding gives back the bytes: Encode is injective and Decode undoes it. */
  lemma {:induction false} DecodeEncode(b: seq<Byte>)
    ensures Decode(Encode(b)) == Ok(b)
  {
    if b != [] {
      var s := Encode(b);
      assert s[2..] == Encode(b[1..]);
      DecodeEncode(b[1..]);
      assert b == [b[0]] + b[1..];
    }
  }

  /** A suffix of a string of hex digits is one too. */
  lemma AllHexDigitsDrop2(s: string)
    requires |s| >= 2 && AllHexDigits(s)
    ensures AllHexDigits(s[2..])
  {
    forall i | 0 <= i < |s[2..]| ensures IsHexDigit(s[2..][i]) {
      assert s[2..][i] == s[i + 2];
    }
  }

  /** Decode succeeds exactly on strings of hex digits of even length, yielding one byte per two characters. */
  lemma {:induction false} DecodeOk(s: string)
    ensures Decode(s).Ok? <==> (AllHexDigits(s) && |s| % 2 == 0)
    ensures Decode(s).Ok? ==> |Decode(s).value| * 2 == |s|
  {
    DecodeErrorKind(s);
    if s != [] && IsHexDigit(s[0]) && |s| > 1 && IsHexDigit(s[1]) {
      DecodeOk(s[2..]);
    }
  }

  /** Splitting a byte into nibbles undoes putting them together. */
  lemma Nibbles(hi: nat, lo: nat)
    requires hi < 16 && lo < 16
    ensures (hi * 16 + lo) / 16 == hi && (hi * 16 + lo) % 16 == lo
  {
  }

  /** The lower-case digit of a digit's value is that digit folded to lower case. */
  lemma LowerDigitOfValue(c: char)
    requires IsHexDigit(c)
    ensures LowerDigit(DigitValue(c)) == ToLowerDigit(c)
  {
  }

  /** Re-encoding what Decode accepted gives the input folded to lower case. */
  lemma {:induction false} EncodeDecode(s: string)
    requires Decode(s).Ok?
    ensures AllHexDigits(s) && Encode(Decode(s).value) == ToLower(s)
  {
    DecodeOk(s);
    if s != [] {
      AllHexDigitsDrop2(s);
      EncodeDecode(s[2..]);
      var b := Decode(s).value;
      var hi, lo := DigitValue(s[0]), DigitValue(s[1]);
      Nibbles(hi, lo);
      LowerDigitOfValue(s[0]);
      LowerDigitOfValue(s[1]);
      var tail := ToLower(s[2..]);
      assert b[0] == hi * 16 + lo;
      assert b[0] / 16 == hi && b[0] % 16 == lo;
      assert Encode(b[1..]) == tail;
      var d0, d1 := ToLowerDigit(s[0]), ToLowerDigit(s[1]);
      assert LowerDigit(hi) == d0 && LowerDigit(lo) == d1;
      assert Encode(b) == [d0, d1] + tail;
      assert s[1..][1..] == s[2..];
      assert ToLower(s) == [d0] + ([d1] + tail);
    }
  }

  /**
   * Which error Decode reports: an invalid character anywhere wins over an
   * odd length, and an odd length is reported only for a string of digits.
   */
  lemma {:induction false} DecodeErrorKind(s: string)
    ensures Decode(s) == Err(InvalidByte) <==> !AllHexDigits(s)
    ensures Decode(s) == Err(OddLength) <==> (AllHexDigits(s) && |s| % 2 == 1)
  {
    if s != [] && IsHexDigit(s[0]) && |s| > 1 && IsHexDigit(s[1]) {
      DecodeErrorKind(s[2..]);
      if AllHexDigits(s[2..]) {
        forall i | 0 <= i < |s| ensures IsHexDigit(s[i]) {
          if i >= 2 { assert s[i] == s[2..][i - 2]; }
        }
      } else {
        var i :| 0 <= i < |s[2..]| && !IsHexDigit(s[2..][i]);
        assert s[i + 2] == s[2..][i];
      }
      if AllHexDigits(s) {
        AllHexDigitsDrop2(s);
      }
    }
  }
}

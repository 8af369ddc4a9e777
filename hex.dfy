/**
  Lower-case hexadecimal encoding of a byte string, as Node's
  `Buffer.toString("hex")` produces it: two digits per byte, the high
  nibble first. The registration flow turns 32 random bytes into its
  verification token with it.
*/
module Hex {

  type byte = bv8

  predicate IsHexDigit(c: char) {
    '0' <= c <= '9' || 'a' <= c <= 'f'
  }

  /** The lower-case digit for a nibble. */
  function Digit(n: nat): (c: char)
    requires n < 16
    ensures IsHexDigit(c)
  {
    if n < 10 then ('0' as int + n) as char else ('a' as int + n - 10) as char
  }

  /** The value of one lower-case hexadecimal digit. */
  function DigitValue(c: char): (v: nat)
    requires IsHexDigit(c)
    ensures v < 16 && Digit(v) == c
  {
    if c <= '9' then (c as int - '0' as int) as nat else (c as int - 'a' as int + 10) as nat
  }

  function EncodeByte(b: byte): (s: string)
    ensures |s| == 2
    ensures IsHexDigit(s[0]) && IsHexDigit(s[1])
    ensures DigitValue(s[0]) * 16 + DigitValue(s[1]) == b as int
  {
    [Digit(b as int / 16), Digit(b as int % 16)]
  }

  /** Every byte becomes two hexadecimal digits. */
  function Encode(bytes: seq<byte>): (s: string)
    ensures |s| == 2 * |bytes|
    ensures forall i :: 0 <= i < |s| ==> IsHexDigit(s[i])
  {
    if bytes == [] then [] else EncodeByte(bytes[0]) + Encode(bytes[1..])
  }

  predicate IsHex(s: string) {
    |s| % 2 == 0 && forall i :: 0 <= i < |s| ==> IsHexDigit(s[i])
  }

  /** The inverse of Encode on well-formed hexadecimal text. */
  function Decode(s: string): (bytes: seq<byte>)
    requires IsHex(s)
    ensures 2 * |bytes| == |s|
  {
    if s == [] then []
    else [(DigitValue(s[0]) * 16 + DigitValue(s[1])) as byte] + Decode(s[2..])
  }

  lemma {:induction false} DecodeEncode(bytes: seq<byte>)
    ensures IsHex(Encode(bytes))
    ensures Decode(Encode(bytes)) == bytes
  {
    if bytes != [] {
      var s := Encode(bytes);
      DecodeEncode(bytes[1..]);
      assert s[2..] == Encode(bytes[1..]);
      assert s[..2] == EncodeByte(bytes[0]);
    }
  }

  /** Distinct random bytes give distinct tokens. */
  lemma EncodeInjective(a: seq<byte>, b: seq<byte>)
    requires Encode(a) == Encode(b)
    ensures a == b
  {
    DecodeEncode(a);
    DecodeEncode(b);
  }
}

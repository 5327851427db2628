/** Booking confirmation tokens: `secrets.token_hex(16)`, sixteen random
    bytes written as 32 lower-case hexadecimal characters, two per byte, high
    nibble first.  The random bytes are an input here. */
module Tokens {

  type Byte = b: int | 0 <= b < 256

  type Token = string

  /** The number of random bytes the views ask for. */
  const TokenBytes: nat := 16

  predicate IsHexChar(c: char)
  {
    '0' <= c <= '9' || 'a' <= c <= 'f'
  }

  /** A well-formed confirmation token. */
  predicate IsToken(t: Token)
  {
    |t| == 2 * TokenBytes && forall i :: 0 <= i < |t| ==> IsHexChar(t[i])
  }

  /** The lower-case hexadecimal digit of a nibble. */
  function HexDigit(n: int): (c: char)
    requires 0 <= n < 16
    ensures IsHexChar(c)
  {
    if n < 10 then ('0' as int + n) as char else ('a' as int + n - 10) as char
  }

  /** The nibble a hexadecimal digit stands for. */
  function HexValue(c: char): (n: int)
    requires IsHexChar(c)
    ensures 0 <= n < 16
  {
    if c <= '9' then c as int - '0' as int else c as int - 'a' as int + 10
  }

  /** `bytes.hex()`. */
  function ToHex(bytes: seq<Byte>): (t: string)
    ensures |t| == 2 * |bytes|
    ensures forall i :: 0 <= i < |t| ==> IsHexChar(t[i])
  {
    if bytes == [] then ""
    else [HexDigit(bytes[0] / 16), HexDigit(bytes[0] % 16)] + ToHex(bytes[1..])
  }

  /** `bytes.fromhex(t)` for a well-formed even-length hexadecimal string. */
  function FromHex(t: string): (bytes: seq<Byte>)
    requires |t| % 2 == 0
    requires forall i :: 0 <= i < |t| ==> IsHexChar(t[i])
    ensures |bytes| == |t| / 2
  {
    if t == [] then []
    else [16 * HexValue(t[0]) + HexValue(t[1])] + FromHex(t[2..])
  }

  /** `secrets.token_hex(16)` once its sixteen random bytes are drawn. */
  function TokenHex(entropy: seq<Byte>): (t: Token)
    requires |entropy| == TokenBytes
    ensures IsToken(t)
  {
    ToHex(entropy)
  }

  /** The hexadecimal text determines the bytes it was made from. */
  lemma {:induction false} HexRoundTrip(bytes: seq<Byte>)
    ensures FromHex(ToHex(bytes)) == bytes
  {
    if bytes != [] {
      var t := ToHex(bytes);
      var b := bytes[0];
      assert HexValue(HexDigit(b / 16)) == b / 16;
      assert HexValue(HexDigit(b % 16)) == b % 16;
      assert t[2..] == ToHex(bytes[1..]);
      HexRoundTrip(bytes[1..]);
    }
  }

  /** Different random draws give different tokens. */
  lemma TokenHexInjective(e1: seq<Byte>, e2: seq<Byte>)
    requires |e1| == TokenBytes && |e2| == TokenBytes
    ensures TokenHex(e1) == TokenHex(e2) ==> e1 == e2
  {
    HexRoundTrip(e1);
    HexRoundTrip(e2);
  }
}

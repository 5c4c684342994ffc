/** Base16 with lower-case digits (section 8 of RFC 4648), as Go's
    encoding/hex writes it; hex.DecodeString is the partner that reads it back. */
module Hex {
  import opened Base
  import Utf8

  /** The lower-case digit of `d` (Go indexes "0123456789abcdef"). */
  function Digit(d: int): (c: char)
    requires 0 <= d < 16
    ensures '0' <= c <= '9' || 'a' <= c <= 'f'
  {
    if d < 10 then ('0' as int + d) as char else ('a' as int + d - 10) as char
  }

  predicate IsLowerHex(c: char) { '0' <= c <= '9' || 'a' <= c <= 'f' }

  /** hex.EncodeToString: two digits per byte, high nibble first. */
  function EncodeToString(bs: seq<Byte>): (s: string)
    ensures |s| == 2 * |bs|
    ensures forall i :: 0 <= i < |s| ==> IsLowerHex(s[i])
    ensures forall i :: 0 <= i < |bs| ==> s[2 * i] == Digit(bs[i] / 16) && s[2 * i + 1] == Digit(bs[i] % 16)
    decreases |bs|
  {
    if |bs| == 0 then ""
    else
      var rest := EncodeToString(bs[1..]);
      var s := [Digit(bs[0] / 16), Digit(bs[0] % 16)] + rest;
      assert forall i :: 1 <= i < |bs| ==> bs[i] == bs[1..][i - 1] && s[2 * i] == rest[2 * (i - 1)];
      s
  }

  /** The value of a hex digit of either case, as Go's decoding table has it. */
  function DigitValue(b: Byte): Option<int>
  {
    if '0' as int <= b <= '9' as int then Some(b - '0' as int)
    else if 'a' as int <= b <= 'f' as int then Some(b - 'a' as int + 10)
    else if 'A' as int <= b <= 'F' as int then Some(b - 'A' as int + 10)
    else None
  }

  datatype DecodeError = InvalidByte(b: Byte) | OddLength

  /** hex.Decode: the bytes decoded before the first error, and that error.
      A bad digit is reported before an odd length. */
  function Decode(src: seq<Byte>): (r: (seq<Byte>, Option<DecodeError>))
    ensures |r.0| <= |src| / 2
    decreases |src|
  {
    if |src| == 0 then ([], None)
    else if DigitValue(src[0]).None? then ([], Some(InvalidByte(src[0])))
    else if |src| == 1 then ([], Some(OddLength))
    else if DigitValue(src[1]).None? then ([], Some(InvalidByte(src[1])))
    else
      var rest := Decode(src[2..]);
      ([DigitValue(src[0]).value * 16 + DigitValue(src[1]).value] + rest.0, rest.1)
  }

  function DecodeString(s: string): (seq<Byte>, Option<DecodeError>)
  {
    Decode(Utf8.Encode(s))
  }

  /** Decoding what EncodeToString wrote gives back the bytes, without error. */
  lemma EncodeDecode(bs: seq<Byte>)
    ensures DecodeString(EncodeToString(bs)) == (bs, None)
  {
    EncodedBytes(bs);
    DecodeDigits(bs);
  }

  /** The bytes of the two digits of each byte. */
  function DigitBytes(bs: seq<Byte>): seq<Byte>
    decreases |bs|
  {
    if |bs| == 0 then [] else [Digit(bs[0] / 16) as int, Digit(bs[0] % 16) as int] + DigitBytes(bs[1..])
  }

  lemma {:induction false} EncodedBytes(bs: seq<Byte>)
    ensures Utf8.Encode(EncodeToString(bs)) == DigitBytes(bs)
    decreases |bs|
  {
    if |bs| > 0 {
      var pair := [Digit(bs[0] / 16), Digit(bs[0] % 16)];
      assert EncodeToString(bs) == pair + EncodeToString(bs[1..]);
      Utf8.EncodeAppend(pair, EncodeToString(bs[1..]));
      assert Utf8.Encode(pair) == [pair[0] as int, pair[1] as int] by {
        Utf8.EncodeAscii(pair);
      }
      EncodedBytes(bs[1..]);
    }
  }

  lemma {:induction false} DecodeDigits(bs: seq<Byte>)
    ensures Decode(DigitBytes(bs)) == (bs, None)
    decreases |bs|
  {
    if |bs| > 0 {
      var src := DigitBytes(bs);
      DigitRoundTrip(bs[0] / 16);
      DigitRoundTrip(bs[0] % 16);
      assert src[2..] == DigitBytes(bs[1..]);
      DecodeDigits(bs[1..]);
      assert [bs[0]] + bs[1..] == bs;
    }
  }

  lemma DigitRoundTrip(d: int)
    requires 0 <= d < 16
    ensures DigitValue(Digit(d) as int) == Some(d)
  {
  }

  /** Different digests never print alike. */
  lemma EncodeInjective(a: seq<Byte>, b: seq<Byte>)
    requires EncodeToString(a) == EncodeToString(b)
    ensures a == b
  {
    EncodeDecode(a);
    EncodeDecode(b);
  }
}

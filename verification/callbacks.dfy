/** Callback validation, identical in ciolite/ciolite.go and cioutil/utils.go:
    the service signs the decimal timestamp followed by the token with
    HMAC-SHA256 under the API secret (RFC 2104 over FIPS 180-4), and a
    callback is authentic when its signature is the lower-case hex of that
    digest. The MAC itself is a parameter. */
module Callbacks {
  import opened Base
  import Utf8
  import Hex

  /** A SHA-256 digest: 32 bytes. */
  type Sha256Digest = d: seq<Byte> | |d| == 32 witness seq(32, i => 0)

  /** HMAC-SHA256 under a key, as a function of key bytes and message bytes. */
  type Mac = (seq<Byte>, seq<Byte>) -> Sha256Digest

  /** The signed message: strconv.Itoa(timestamp) then the token, with no
      separator. */
  function SignedMessage(timestamp: int, token: string): (m: string)
    ensures |m| == |Itoa(timestamp)| + |token| && |m| > |token|
    ensures m[..|Itoa(timestamp)|] == Itoa(timestamp) && m[|Itoa(timestamp)|..] == token
  {
    Itoa(timestamp) + token
  }

  /** hashHmac: the MAC of the message's bytes under the secret's bytes,
      written as lower-case hex. */
  function HashHmac(mac: Mac, message: string, secret: string): (h: string)
    ensures |h| == 64
    ensures forall i :: 0 <= i < |h| ==> Hex.IsLowerHex(h[i])
    ensures Hex.DecodeString(h) == (mac(Utf8.Encode(secret), Utf8.Encode(message)), None)
  {
    var digest := mac(Utf8.Encode(secret), Utf8.Encode(message));
    Hex.EncodeDecode(digest);
    Hex.EncodeToString(digest)
  }

  /** ValidateCallback: `len(hash) > 0 && signature == hash`. */
  function ValidateCallback(mac: Mac, secret: string, token: string, signature: string, timestamp: int): (ok: bool)
    ensures ok <==> signature == HashHmac(mac, SignedMessage(timestamp, token), secret)
    ensures ok ==> |signature| == 64 && signature != ""
  {
    var hash := HashHmac(mac, SignedMessage(timestamp, token), secret);
    |hash| > 0 && signature == hash
  }

  /** An accepted signature reads back, as hex, to the MAC of the signed
      message; an upper-case rendering of the same digest is refused. */
  lemma AcceptedSignature(mac: Mac, secret: string, token: string, signature: string, timestamp: int)
    requires ValidateCallback(mac, secret, token, signature, timestamp)
    ensures Hex.DecodeString(signature) == (mac(Utf8.Encode(secret), Utf8.Encode(SignedMessage(timestamp, token))), None)
    ensures forall i :: 0 <= i < |signature| ==> !('A' <= signature[i] <= 'F')
  {
  }

  /** At most one signature is accepted for a given callback. */
  lemma OneSignature(mac: Mac, secret: string, token: string, s1: string, s2: string, timestamp: int)
    requires ValidateCallback(mac, secret, token, s1, timestamp)
    requires ValidateCallback(mac, secret, token, s2, timestamp)
    ensures s1 == s2
  {
  }

  /** With no separator, timestamp 1 with token "23" and timestamp 12 with
      token "3" sign the same message, so they get the same verdict. */
  lemma NoSeparator(mac: Mac, secret: string, signature: string)
    ensures SignedMessage(1, "23") == SignedMessage(12, "3")
    ensures ValidateCallback(mac, secret, "23", signature, 1) == ValidateCallback(mac, secret, "3", signature, 12)
  {
    ItoaLastDigit(12);
  }
}

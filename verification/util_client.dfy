/** The Cio value of cioutil/utils.go that the cioutil clients embed. */
module UtilClient {
  import opened Base
  import Callbacks

  /** time.Duration counts nanoseconds. */
  type Duration = int

  /** The Logger interface value: nil, a *logrus.Logger, or any other
      Printf logger. */
  datatype Logger = NoLogger | LogrusLogger | PrintfLogger

  datatype Cio = Cio(
    apiKey: string, apiSecret: string, log: Logger, host: string, requestTimeout: Duration,
    retryServerErr: bool, preRequestHook: bool)

  /** NewCio: copies what it is given; RetryServerErr stays false and the
      pre-request hook nil. */
  function NewCio(key: string, secret: string, logger: Logger, host: string, requestTimeout: Duration): (c: Cio)
    ensures c.apiKey == key && c.apiSecret == secret && c.log == logger
    ensures c.host == host && c.requestTimeout == requestTimeout
    ensures !c.retryServerErr && !c.preRequestHook
  {
    Cio(key, secret, logger, host, requestTimeout, false, false)
  }

  /** (Cio).ValidateCallback, under the client's secret. */
  function ValidateCallback(cio: Cio, mac: Callbacks.Mac, token: string, signature: string, timestamp: int): (ok: bool)
    ensures ok <==> signature == Callbacks.HashHmac(mac, Itoa(timestamp) + token, cio.apiSecret)
  {
    Callbacks.ValidateCallback(mac, cio.apiSecret, token, signature, timestamp)
  }

  /** The signature hashHmac writes is even-length lower-case hex, and it
      is the one signature a client built by NewCio accepts. */
  lemma SignatureShape(key: string, secret: string, logger: Logger, host: string, timeout: Duration,
                       mac: Callbacks.Mac, token: string, timestamp: int)
    ensures var h := Callbacks.HashHmac(mac, Callbacks.SignedMessage(timestamp, token), secret);
      && |h| % 2 == 0
      && ValidateCallback(NewCio(key, secret, logger, host, timeout), mac, token, h, timestamp)
      && forall s :: ValidateCallback(NewCio(key, secret, logger, host, timeout), mac, token, s, timestamp) ==> s == h
  {
  }
}

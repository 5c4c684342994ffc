/** The CioLite client value of ciolite/ciolite.go: credentials, host,
    timeout and which of its hooks are set. A hook's behaviour is an oracle
    supplied to the request pipeline, so the value only records whether it
    is present. */
module LiteClient {
  import opened Base
  import Callbacks

  /** time.Duration counts nanoseconds. */
  type Duration = int
  const Second: Duration := 1_000_000_000

  const DefaultHost := "https://api.context.io/lite"
  const DefaultRequestTimeout: Duration := 120 * Second

  datatype CioLite = CioLite(
    apiKey: string, apiSecret: string, host: string, requestTimeout: Duration,
    preRequestHook: bool, postRequestShouldRetryHook: bool, responseBodyCloseErrorHook: bool)

  /** NewCioLite: the given credentials, the default host and a timeout of
      two minutes, and no hooks. */
  function NewCioLite(key: string, secret: string): (c: CioLite)
    ensures c.apiKey == key && c.apiSecret == secret
    ensures c.host == "https://api.context.io/lite" && c.requestTimeout == 120_000_000_000
    ensures !c.preRequestHook && !c.postRequestShouldRetryHook && !c.responseBodyCloseErrorHook
  {
    CioLite(key, secret, DefaultHost, DefaultRequestTimeout, false, false, false)
  }

  /** (CioLite).ValidateCallback, under the client's secret. */
  function ValidateCallback(cio: CioLite, mac: Callbacks.Mac, token: string, signature: string, timestamp: int): (ok: bool)
    ensures ok <==> signature == Callbacks.HashHmac(mac, Itoa(timestamp) + token, cio.apiSecret)
  {
    Callbacks.ValidateCallback(mac, cio.apiSecret, token, signature, timestamp)
  }

  /** A client built by NewCioLite validates with the secret it was given,
      whatever its key, and never accepts an empty signature. */
  lemma NewClientValidates(key: string, secret: string, mac: Callbacks.Mac, token: string, signature: string, timestamp: int)
    ensures ValidateCallback(NewCioLite(key, secret), mac, token, signature, timestamp)
      == Callbacks.ValidateCallback(mac, secret, token, signature, timestamp)
    ensures !ValidateCallback(NewCioLite(key, secret), mac, token, "", timestamp)
  {
  }
}

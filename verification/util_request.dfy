/** The request pipeline of the cioutil package (cioutil/request.go) without
    the network: the URL and body, the redacted log line, and the
    classification of the outcome. There is a single attempt and no retry
    hook, and the errors are plain formatted errors, not RequestErrors. */
module UtilRequest {
  import opened Base
  import opened GoErrors
  import opened ParamFields
  import opened UrlValues
  import opened Outcomes
  import Utf8
  import Hex
  import StrictParams
  import UtilClient
  import Redaction
  import LiteRequest

  /** The strict codec's implementation is not part of this model, so a
      request's parameters are taken to be in its known domain. */
  datatype ClientRequest = ClientRequest(httpMethod: string, path: string, formValues: seq<Field>, queryValues: seq<Field>)

  predicate Encodable(req: ClientRequest)
  {
    && (forall i :: 0 <= i < |req.formValues| ==> StrictParams.InDomain(req.formValues[i]))
    && (forall i :: 0 <= i < |req.queryValues| ==> StrictParams.InDomain(req.queryValues[i]))
  }

  /** The request DoFormRequest builds: the URL is the host, the path as
      given and the query string; there is a body exactly when the encoded
      form values are not empty. */
  datatype Built = Built(url: string, bodyValues: seq<Entry>, body: Option<string>)

  function Build(cio: UtilClient.Cio, req: ClientRequest): (b: Built)
    requires Encodable(req)
    ensures Sorted(b.bodyValues)
    ensures b.url == cio.host + req.path + StrictParams.QueryString(req.queryValues)
    ensures b.body.None? <==> Pairs(StrictParams.FormValues(req.formValues)) == []
    ensures b.body.Some? ==> b.body.value == Encode(b.bodyValues) && ParseQuery(b.body.value) == (BytePairs(Pairs(b.bodyValues)), None)
  {
    var bodyValues := StrictParams.FormValues(req.formValues);
    var bodyString := Encode(bodyValues);
    EncodeEmptyIff(bodyValues);
    EncodeParseRoundTrip(bodyValues);
    Built(cio.host + req.path + StrictParams.QueryString(req.queryValues), bodyValues,
      if |bodyString| > 0 then Some(bodyString) else None)
  }

  // ---------------------------------------------------------------------
  // logRequest

  /** An MD5 digest: 16 bytes. */
  type Md5Digest = d: seq<Byte> | |d| == 16 witness seq(16, i => 0)

  /** fmt.Sprintf("%x", md5.Sum([]byte(v))): 32 lower-case hex digits. */
  function Md5Hex(md5: seq<Byte> -> Md5Digest, v: string): (h: string)
    ensures |h| == 32 && forall i :: 0 <= i < |h| ==> Hex.IsLowerHex(h[i])
    ensures Hex.DecodeString(h) == (md5(Utf8.Encode(v)), None)
  {
    Hex.EncodeDecode(md5(Utf8.Encode(v)));
    Hex.EncodeToString(md5(Utf8.Encode(v)))
  }

  /** The body values logRequest logs: each sensitive non-empty first value
      replaced by its MD5 in hex. */
  function LoggedValues(md5: seq<Byte> -> Md5Digest, vs: seq<Entry>): (r: seq<Entry>)
    requires Sorted(vs)
    ensures Sorted(r)
  {
    Redaction.Redact(vs, v => Md5Hex(md5, v))
  }

  /** What logRequest writes: nothing without a logger, structured fields
      for logrus, a sentence for any other logger. */
  datatype LogEntry =
    | NoEntry
    | LogrusFields(httpMethod: string, url: string, payload: string)
    | Line(text: string)

  /** A plain log line reads: the method and the URL at its start, the
      logged payload at its end. */
  predicate LineReads(text: string, httpMethod: string, url: string, payload: string)
  {
    var head := "Creating new " + httpMethod + " request to: " + url;
    var tail := " with payload: " + payload;
    && |head| + |tail| == |text|
    && text[..|head|] == head
    && text[|head|..] == tail
  }

  function LineText(httpMethod: string, url: string, payload: string): (text: string)
    ensures LineReads(text, httpMethod, url, payload)
    ensures |payload| <= |text| && text[|text| - |payload|..] == payload
  {
    var head := "Creating new " + httpMethod + " request to: " + url;
    var tail := " with payload: " + payload;
    assert (head + tail)[|head|..] == tail;
    assert (head + tail)[|head + tail| - |payload|..] == payload;
    head + tail
  }

  function LogRequest(log: UtilClient.Logger, md5: seq<Byte> -> Md5Digest, httpMethod: string, url: string, vs: seq<Entry>): (e: LogEntry)
    requires Sorted(vs)
    ensures e.NoEntry? <==> log.NoLogger?
    ensures e.LogrusFields? ==> e.payload == Encode(LoggedValues(md5, vs))
    ensures e.Line? ==> var p := Encode(LoggedValues(md5, vs));
      |p| <= |e.text| && e.text[|e.text| - |p|..] == p
    ensures e.Line? ==> LineReads(e.text, httpMethod, url, Encode(LoggedValues(md5, vs)))
  {
    var payload := Encode(LoggedValues(md5, vs));
    match log
    case NoLogger => NoEntry
    case LogrusLogger => LogrusFields(httpMethod, url, payload)
    case PrintfLogger =>
      Line(LineText(httpMethod, url, payload))
  }

  /** A logged sensitive value is the hex MD5 of the secret, never the
      secret itself unless that is its own hash; every other key is logged
      as sent. */
  lemma LoggedLookup(md5: seq<Byte> -> Md5Digest, vs: seq<Entry>, k: string)
    requires Sorted(vs)
    ensures Redaction.Sensitive(k) && Get(vs, k) != "" ==>
      Lookup(LoggedValues(md5, vs), k) == Some([Md5Hex(md5, Get(vs, k))])
    ensures !Redaction.Sensitive(k) || Get(vs, k) == "" ==> Lookup(LoggedValues(md5, vs), k) == Lookup(vs, k)
  {
    Redaction.RedactLookup(vs, v => Md5Hex(md5, v), k);
  }

  // ---------------------------------------------------------------------
  // sendRequest

  /** The text between the status code and the body of a rejection. */
  const RejectedText := " Status Code with Payload "

  /** The fixed text fmt.Errorf puts before the underlying failure. */
  function FailurePrefix(o: Outcome): string
    requires !o.Received?
  {
    match o
    case FormFailed(_) => "Could not create request: "
    case TransportFailed(_) => "Failed to make request: "
    case ReadFailed(_, _, _) => "Could not read response: "
  }

  /** The error DoFormRequest returns for an outcome: the construction,
      transport and read failures as fmt.Errorf texts; a status of 400 or
      more as a text with the code and the body, whatever the decoder said;
      below 400, the decoder's error as it is. */
  function Classify(o: Outcome): (err: Option<GoError>)
    ensures err.None? <==> Success(o)
    ensures o.Received? && o.status < 400 ==> err == o.decodeErr
    ensures o.Received? && o.status >= 400 ==>
      && err.Some? && err.value.Plain?
      && Message(err.value) == Itoa(o.status) + RejectedText + o.body
    ensures !o.Received? ==>
      && err.Some? && err.value.Plain?
      && Message(err.value) == FailurePrefix(o) + Message(o.cause)
  {
    match o
    case FormFailed(c) => Some(Plain("Could not create request: " + Message(c)))
    case TransportFailed(c) => Some(Plain("Failed to make request: " + Message(c)))
    case ReadFailed(_, _, c) => Some(Plain("Could not read response: " + Message(c)))
    case Received(status, body, decodeErr) =>
      if status >= 400 then Some(Plain(Itoa(status) + " Status Code with Payload " + body))
      else decodeErr
  }

  /** DoFormRequest: the request is built, logged with its secrets hashed,
      and sent once; the outcome decides the error. */
  function DoFormRequest(cio: UtilClient.Cio, req: ClientRequest, md5: seq<Byte> -> Md5Digest, o: Outcome): (r: (LogEntry, Option<GoError>))
    requires Encodable(req)
    ensures r.1.None? <==> Success(o)
    ensures r.1 == Classify(o)
    ensures r.0.NoEntry? <==> cio.log.NoLogger?
    ensures r.0.LogrusFields? <==> cio.log.LogrusLogger?
    ensures r.0.LogrusFields? ==>
      && r.0.httpMethod == req.httpMethod
      && r.0.url == cio.host + req.path + StrictParams.QueryString(req.queryValues)
      && r.0.payload == Encode(LoggedValues(md5, StrictParams.FormValues(req.formValues)))
    ensures r.0.Line? ==>
      LineReads(r.0.text, req.httpMethod, cio.host + req.path + StrictParams.QueryString(req.queryValues),
        Encode(LoggedValues(md5, StrictParams.FormValues(req.formValues))))
  {
    var b := Build(cio, req);
    (LogRequest(cio.log, md5, req.httpMethod, b.url, b.bodyValues), Classify(o))
  }

  /** The two packages fail on the same outcomes; only the lite client's
      error carries the status and payload as fields. */
  lemma AgreesWithLite(httpMethod: string, url: string, o: Outcome)
    ensures Classify(o).None? <==> LiteRequest.Classify(httpMethod, url, o).err.None?
  {
  }

  /** The status of a rejected response can be read back from the start of
      the error text, and the body from its end. */
  lemma StatusInText(status: Int64, body: string, d: Option<GoError>)
    requires status >= 400
    ensures var m := Message(Classify(Received(status, body, d)).value);
      && |Itoa(status)| + |RejectedText| + |body| == |m|
      && SignedDecimalValue(m[..|Itoa(status)|]) == Some(status as int)
      && m[|m| - |body|..] == body
  {
    var m := Message(Classify(Received(status, body, d)).value);
    assert m[..|Itoa(status)|] == Itoa(status);
    assert m[|m| - |body|..] == body;
    ItoaRoundTrip(status);
  }

  /** From 400 up the decoder's verdict changes nothing: a failed and a
      successful decode of the same response give the same error. */
  lemma RejectionIgnoresDecoder(status: Int64, body: string, d1: Option<GoError>, d2: Option<GoError>)
    requires status >= 400
    ensures Classify(Received(status, body, d1)) == Classify(Received(status, body, d2))
    ensures Classify(Received(status, body, d1)).Some?
  {
  }

  /** Unlike the lite client's, a read failure's error keeps neither the
      status nor the text read so far: only the underlying failure. */
  lemma ReadFailureLosesStatus(c: GoError, status: Int64, partial: string)
    ensures Classify(ReadFailed(status, partial, c)) == Classify(ReadFailed(0, "", c))
    ensures LiteRequest.Classify("GET", "", ReadFailed(status, partial, c)).status == status
  {
  }
}

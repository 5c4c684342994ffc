/** The request pipeline of the lite client (ciolite/request.go) without the
    network: building the URL and body, the pre-request hook, the attempt
    loop driven by the retry hook, and the classification of each attempt's
    outcome into a status, a payload and an error. What the network, the
    OAuth signer and the JSON decoder do is given as data: an `Outcome` per
    attempt and the answers of the retry hook. */
module LiteRequest {
  import opened Base
  import opened GoErrors
  import opened ParamFields
  import opened UrlValues
  import opened RequestErrors
  import LiteParams
  import LiteClient
  import Redaction
  import opened Outcomes
  import LiteRequestError
  import ErrorHelper

  datatype ClientRequest = ClientRequest(
    httpMethod: string, path: string, formValues: Option<seq<Field>>, queryValues: Option<seq<Field>>,
    userID: string, accountLabel: string)

  // ---------------------------------------------------------------------
  // Redaction

  const Redacted := "redacted"

  /** redactBodyValues: a copy of the body with each sensitive key's
      non-empty first value replaced by "redacted". */
  function RedactBodyValues(vs: seq<Entry>): (r: seq<Entry>)
    requires Sorted(vs)
    ensures Sorted(r)
  {
    Redaction.Redact(vs, _ => Redacted)
  }

  /** What redactBodyValues keeps and what it hides: a sensitive key whose
      first value is not empty holds only "redacted", any other key keeps
      its values, and no key is added or dropped. */
  lemma RedactBody(vs: seq<Entry>, k: string)
    requires Sorted(vs)
    ensures Lookup(RedactBodyValues(vs), k) ==
      if Redaction.Sensitive(k) && Get(vs, k) != "" then Some([Redacted]) else Lookup(vs, k)
    ensures Lookup(RedactBodyValues(vs), k).None? <==> Lookup(vs, k).None?
  {
    Redaction.RedactLookup(vs, _ => Redacted, k);
  }

  /** Redacting twice is redacting once. */
  lemma RedactIdempotent(vs: seq<Entry>, k: string)
    requires Sorted(vs)
    ensures Lookup(RedactBodyValues(RedactBodyValues(vs)), k) == Lookup(RedactBodyValues(vs), k)
  {
    RedactBody(vs, k);
    RedactBody(RedactBodyValues(vs), k);
  }

  // ---------------------------------------------------------------------
  // Building the request

  /** The arguments the pre-request hook receives. */
  datatype PreHookCall = PreHookCall(userID: string, accountLabel: string, httpMethod: string, url: string, body: seq<Entry>)

  /** The request as doFormRequest builds it before the first attempt. */
  datatype Prepared = Prepared(url: string, bodyValues: seq<Entry>, body: string, preHook: Option<PreHookCall>)

  /** The URL is the host, the escaped path (url.URL{Path: p}.String(),
      given as `escapePath`) and the query string; the body is the encoded
      form values. The query values are encoded first, so a panic there
      comes before one in the form values. */
  function Prepare(cio: LiteClient.CioLite, req: ClientRequest, escapePath: string -> string): (r: Result<Prepared, Panic>)
    ensures r.Ok? <==> LiteParams.QueryString(req.queryValues).Ok? && LiteParams.FormValues(req.formValues).Ok?
    ensures LiteParams.QueryString(req.queryValues).Err? ==> r == Err(LiteParams.QueryString(req.queryValues).error)
    ensures r.Ok? ==>
      && Sorted(r.value.bodyValues)
      && r.value.url == cio.host + escapePath(req.path) + LiteParams.QueryString(req.queryValues).value
      && r.value.body == Encode(r.value.bodyValues)
      && (r.value.preHook.Some? <==> cio.preRequestHook)
      && (r.value.preHook.Some? ==> r.value.preHook.value.body == RedactBodyValues(r.value.bodyValues))
  {
    var query :- LiteParams.QueryString(req.queryValues);
    var url := cio.host + escapePath(req.path) + query;
    var bodyValues :- LiteParams.FormValues(req.formValues);
    var hook := if cio.preRequestHook
      then Some(PreHookCall(req.userID, req.accountLabel, req.httpMethod, url, RedactBodyValues(bodyValues)))
      else None;
    Ok(Prepared(url, bodyValues, Encode(bodyValues), hook))
  }

  /** The pre-request hook never sees a secret as the value of a sensitive
      key: that value reads as "" or the key holds just "redacted". */
  lemma PreHookRedacted(cio: LiteClient.CioLite, req: ClientRequest, escapePath: string -> string, k: string)
    requires Prepare(cio, req, escapePath).Ok? && Prepare(cio, req, escapePath).value.preHook.Some?
    requires Redaction.Sensitive(k)
    ensures var p := Prepare(cio, req, escapePath).value;
      Get(p.preHook.value.body, k) == "" || Lookup(p.preHook.value.body, k) == Some([Redacted])
  {
    var p := Prepare(cio, req, escapePath).value;
    RedactBody(p.bodyValues, k);
  }

  // ---------------------------------------------------------------------
  // One attempt

  /** The (status code, body, error) triple createAndSendRequest returns. */
  datatype Reply = Reply(status: Int64, payload: string, err: Option<RequestError>)

  /** The method of the *http.Request that http.NewRequest builds: an
      empty method means GET. */
  function SentMethod(httpMethod: string): string
  {
    if httpMethod == "" then "GET" else httpMethod
  }

  /** createAndSendRequest and sendRequest: construction and transport
      failures have no status or payload; a read failure keeps what was
      read; a status of 400 or more is an error whatever the decoder said;
      below 400, only a decode failure is an error. A construction failure
      reports the request's method; once the *http.Request exists, errors
      report its method, in which an empty method has become GET. */
  function Classify(httpMethod: string, url: string, o: Outcome): (r: Reply)
    ensures r.err.None? <==> Success(o)
    ensures r.err.Some? ==> r.err.value.meta.statusCode == r.status && r.err.value.meta.payload == r.payload
    ensures r.err.Some? ==> r.err.value.meta.url == url
    ensures r.err.Some? && httpMethod != "" ==> r.err.value.meta.httpMethod == httpMethod
    ensures r.err.Some? && httpMethod == "" ==> r.err.value.meta.httpMethod == (if o.FormFailed? then "" else "GET")
    ensures o.FormFailed? || o.TransportFailed? ==> r.status == 0 && r.payload == ""
    ensures o.ReadFailed? ==> r.status == o.status && r.payload == o.partial
    ensures o.Received? ==> r.status == o.status && r.payload == o.body
  {
    match o
    case FormFailed(c) =>
      Reply(0, "", Some(RequestError(Wrapped(c, "CIO: Failed to form request"), ErrorMetaData(0, "", httpMethod, url))))
    case TransportFailed(c) =>
      Reply(0, "", Some(RequestError(Wrapped(c, "CIO: Failed to make request"), ErrorMetaData(0, "", SentMethod(httpMethod), url))))
    case ReadFailed(status, partial, c) =>
      Reply(status, partial, Some(RequestError(Wrapped(c, "CIO: Could not read response"), ErrorMetaData(status, partial, SentMethod(httpMethod), url))))
    case Received(status, body, decodeErr) =>
      if status >= 400 then
        Reply(status, body, Some(RequestError(Fundamental("CIO: Status Code >= 400"), ErrorMetaData(status, body, SentMethod(httpMethod), url))))
      else if decodeErr.Some? then
        Reply(status, body, Some(RequestError(Wrapped(decodeErr.value, "CIO: Could not unmarshal payload"), ErrorMetaData(status, body, SentMethod(httpMethod), url))))
      else Reply(status, body, None)
  }

  /** For a status of 400 or more the decoder's verdict changes nothing. */
  lemma StatusDecides(httpMethod: string, url: string, status: Int64, body: string, d1: Option<GoError>, d2: Option<GoError>)
    requires status >= 400
    ensures Classify(httpMethod, url, Received(status, body, d1)) == Classify(httpMethod, url, Received(status, body, d2))
    ensures Message(Classify(httpMethod, url, Received(status, body, d1)).err.value.err) == "CIO: Status Code >= 400"
  {
  }

  /** errors.Cause on a wrapped failure reaches the failure that caused it,
      and Error() ends with its text. */
  lemma FailureCause(httpMethod: string, url: string, o: Outcome)
    requires o.FormFailed? || o.TransportFailed? || o.ReadFailed? || (o.Received? && o.status < 400 && o.decodeErr.Some?)
    ensures var e := Classify(httpMethod, url, o).err.value;
      RequestCause(e) == Cause(if o.Received? then o.decodeErr.value else o.cause)
  {
  }

  /** The status and payload a caller reads back from the returned error,
      with the error's own methods or with cioutil's interface-based
      accessors, are the ones the attempt returned. */
  lemma ReplyAccessors(httpMethod: string, url: string, o: Outcome)
    requires Classify(httpMethod, url, o).err.Some?
    ensures var r := Classify(httpMethod, url, o); var e := r.err.value;
      && LiteRequestError.ErrorStatusCode(e) == r.status && LiteRequestError.ErrorPayload(e) == r.payload
      && LiteRequestError.ErrorMethod(e) == (if o.FormFailed? then httpMethod else SentMethod(httpMethod))
      && LiteRequestError.ErrorURL(e) == url
      && ErrorHelper.ErrorStatusCode(Some(ErrorHelper.LiteMethods(e))) == r.status
      && ErrorHelper.ErrorPayload(Some(ErrorHelper.LiteMethods(e))) == r.payload
  {
  }

  // ---------------------------------------------------------------------
  // The attempt loop

  /** The arguments the retry hook receives, its clock readings left out. */
  datatype HookCall = HookCall(attempt: nat, userID: string, accountLabel: string, httpMethod: string, url: string,
                               status: Int64, payload: string, err: Option<RequestError>)

  /** The index of the first `false` among the hook's answers, or their
      number when there is none. */
  function FirstStop(answers: seq<bool>): (i: nat)
    ensures i <= |answers|
    ensures forall k :: 0 <= k < i ==> answers[k]
    ensures i < |answers| ==> !answers[i]
    decreases |answers|
  {
    if |answers| == 0 || !answers[0] then 0 else 1 + FirstStop(answers[1..])
  }

  /** The number of attempts: one without a retry hook, otherwise up to and
      including the first attempt after which the hook says no. */
  function Attempts(retryHook: bool, answers: seq<bool>): nat
  {
    if retryHook then FirstStop(answers) + 1 else 1
  }

  /** The hook the client runs after attempt `i`, reporting that attempt. */
  function CallFor(req: ClientRequest, url: string, outcomes: seq<Outcome>, i: nat): HookCall
    requires 1 <= i <= |outcomes|
  {
    var reply := Classify(req.httpMethod, url, outcomes[i - 1]);
    HookCall(i, req.userID, req.accountLabel, req.httpMethod, url, reply.status, reply.payload, reply.err)
  }

  /** The loop of doFormRequest. `outcomes[i - 1]` is what attempt `i`
      meets and `answers[i - 1]` what the retry hook says after it; the
      hook must eventually say no (otherwise the client never returns). The
      result is the error of the last attempt, and the hook hears of every
      attempt, numbered from 1. */
  method AttemptLoop(req: ClientRequest, url: string, outcomes: seq<Outcome>, retryHook: bool, answers: seq<bool>)
    returns (err: Option<RequestError>, calls: seq<HookCall>)
    requires retryHook ==> FirstStop(answers) < |answers|
    requires Attempts(retryHook, answers) <= |outcomes|
    ensures var n := Attempts(retryHook, answers);
      && err == Classify(req.httpMethod, url, outcomes[n - 1]).err
      && |calls| == (if retryHook then n else 0)
      && forall k :: 0 <= k < |calls| ==> calls[k] == CallFor(req, url, outcomes, k + 1)
  {
    var n := Attempts(retryHook, answers);
    var i := 1;
    calls := [];
    while true
      invariant 1 <= i <= n
      invariant |calls| == (if retryHook then i - 1 else 0)
      invariant forall k :: 0 <= k < |calls| ==> calls[k] == CallFor(req, url, outcomes, k + 1)
      decreases n - i
    {
      var reply := Classify(req.httpMethod, url, outcomes[i - 1]);
      err := reply.err;
      if !retryHook {
        break;
      }
      calls := calls + [CallFor(req, url, outcomes, i)];
      if !answers[i - 1] {
        break;
      }
      i := i + 1;
    }
  }

  /** doFormRequest: build the request (a panic in the parameter codec
      ends everything), tell the pre-request hook, then run the attempts. */
  method DoFormRequest(cio: LiteClient.CioLite, req: ClientRequest, escapePath: string -> string,
                       outcomes: seq<Outcome>, answers: seq<bool>)
    returns (r: Result<Option<RequestError>, Panic>, preHook: Option<PreHookCall>, calls: seq<HookCall>)
    requires cio.postRequestShouldRetryHook ==> FirstStop(answers) < |answers|
    requires Attempts(cio.postRequestShouldRetryHook, answers) <= |outcomes|
    ensures var p := Prepare(cio, req, escapePath);
      && (r.Err? <==> p.Err?)
      && (p.Err? ==> r.error == p.error && preHook.None? && calls == [])
      && (p.Ok? ==>
            && preHook == p.value.preHook
            && r.value == Classify(req.httpMethod, p.value.url, outcomes[Attempts(cio.postRequestShouldRetryHook, answers) - 1]).err
            && |calls| == (if cio.postRequestShouldRetryHook then Attempts(true, answers) else 0))
  {
    var p := Prepare(cio, req, escapePath);
    if p.Err? {
      return Err(p.error), None, [];
    }
    var err;
    err, calls := AttemptLoop(req, p.value.url, outcomes, cio.postRequestShouldRetryHook, answers);
    return Ok(err), p.value.preHook, calls;
  }
}

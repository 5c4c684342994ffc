/** The accessors of cioutil/request_error_helper.go, a revision of the
    cioutil accessors that asks the error for a method instead of asserting
    its type: an error answers ErrorStatusCode() only if it has that
    method, and so on for each field, independently. */
module ErrorHelper {
  import opened Base
  import opened RequestErrors
  import GoErrors
  import LiteRequestError
  import UtilRequestError

  const UnknownStatusCode := -1
  const UnknownPayload := "UNKNOWN"
  const UnknownMethod := "UNKNOWN"
  const UnknownURL := "UNKNOWN"

  /** The accessor methods a non-nil error value has, with what each would
      return; None means the method is missing. */
  datatype Methods = Methods(
    statusCode: Option<int>, payload: Option<string>, httpMethod: Option<string>, url: Option<string>)

  /** ciolite's RequestError has all four methods, each returning its field. */
  function LiteMethods(e: RequestError): (m: Methods)
    ensures m.statusCode == Some(e.meta.statusCode) && m.payload == Some(e.meta.payload)
    ensures m.httpMethod == Some(e.meta.httpMethod) && m.url == Some(e.meta.url)
  {
    Methods(Some(e.meta.statusCode), Some(e.meta.payload), Some(e.meta.httpMethod), Some(e.meta.url))
  }

  /** An error without any of the methods, such as errors.New's. */
  const NoMethods := Methods(None, None, None, None)

  /** A value of the `error` interface: None is nil. */
  type Error = Option<Methods>

  function ErrorStatusCode(err: Error): (r: int)
    ensures err.None? ==> r == 0
    ensures err.Some? && err.value.statusCode.Some? ==> r == err.value.statusCode.value
    ensures err.Some? && err.value.statusCode.None? ==> r == UnknownStatusCode
  {
    match err
    case None => 0
    case Some(m) => if m.statusCode.Some? then m.statusCode.value else UnknownStatusCode
  }

  /** The string accessors: "" for nil, the method's answer, or "UNKNOWN"
      when the method is missing. */
  function ErrorPayload(err: Error): (r: string)
    ensures err.None? ==> r == ""
    ensures err.Some? ==> r == if err.value.payload.Some? then err.value.payload.value else UnknownPayload
  {
    match err
    case None => ""
    case Some(m) => if m.payload.Some? then m.payload.value else UnknownPayload
  }

  function ErrorMethod(err: Error): (r: string)
    ensures err.None? ==> r == ""
    ensures err.Some? ==> r == if err.value.httpMethod.Some? then err.value.httpMethod.value else UnknownMethod
  {
    match err
    case None => ""
    case Some(m) => if m.httpMethod.Some? then m.httpMethod.value else UnknownMethod
  }

  function ErrorURL(err: Error): (r: string)
    ensures err.None? ==> r == ""
    ensures err.Some? ==> r == if err.value.url.Some? then err.value.url.value else UnknownURL
  {
    match err
    case None => ""
    case Some(m) => if m.url.Some? then m.url.value else UnknownURL
  }

  // ---------------------------------------------------------------------
  // Properties

  /** A ciolite RequestError answers every accessor with what its own
      method returns, which is its field. */
  lemma LiteAnswers(e: RequestError)
    ensures ErrorStatusCode(Some(LiteMethods(e))) == LiteRequestError.ErrorStatusCode(e)
    ensures ErrorPayload(Some(LiteMethods(e))) == LiteRequestError.ErrorPayload(e)
    ensures ErrorMethod(Some(LiteMethods(e))) == LiteRequestError.ErrorMethod(e)
    ensures ErrorURL(Some(LiteMethods(e))) == LiteRequestError.ErrorURL(e)
  {
  }

  /** Each accessor looks only at its own method: an error that offers
      ErrorPayload alone gets its payload and the sentinels for the rest. */
  lemma Independent(m: Methods, payload: string)
    ensures var only := Methods(None, Some(payload), None, None);
      && ErrorPayload(Some(only)) == payload
      && ErrorStatusCode(Some(only)) == UnknownStatusCode
      && ErrorMethod(Some(only)) == UnknownMethod && ErrorURL(Some(only)) == UnknownURL
    ensures ErrorStatusCode(Some(m)) == ErrorStatusCode(Some(m.(payload := None, httpMethod := None, url := None)))
    ensures ErrorPayload(Some(m)) == ErrorPayload(Some(m.(statusCode := None, httpMethod := None, url := None)))
  {
  }

  /** The two cioutil revisions agree on nil and on errors with no accessor
      methods, and differ on a ciolite RequestError: the type assertion of
      cioutil/request_error.go does not recognise it, the interfaces here
      do. */
  lemma RevisionsCompared(e: RequestError, other: GoErrors.GoError)
    ensures ErrorStatusCode(None) == UtilRequestError.ErrorStatusCode(NilError)
    ensures ErrorPayload(None) == UtilRequestError.ErrorPayload(NilError)
    ensures ErrorStatusCode(Some(NoMethods)) == UtilRequestError.ErrorStatusCode(OtherError(other))
    ensures ErrorURL(Some(NoMethods)) == UtilRequestError.ErrorURL(OtherError(other))
    ensures UtilRequestError.ErrorStatusCode(LiteError(e)) == UnknownStatusCode
    ensures UtilRequestError.ErrorPayload(LiteError(e)) == UnknownPayload
    ensures ErrorStatusCode(Some(LiteMethods(e))) == e.meta.statusCode
    ensures ErrorPayload(Some(LiteMethods(e))) == e.meta.payload
  {
  }
}

/** cioutil's RequestError (cioutil/request_error.go): the same record with
    the error embedded, JSON under the key "Error", and package-level
    accessors that take any error and answer with a sentinel when it is not
    a cioutil RequestError. */
module UtilRequestError {
  import opened Base
  import opened Json
  import opened GoErrors
  import opened RequestErrors

  const ErrKey := "Error"

  const UnknownStatusCode := -1
  const UnknownPayload := "UNKNOWN"
  const UnknownMethod := "UNKNOWN"
  const UnknownURL := "UNKNOWN"

  /** ErrorStatusCode: 0 for nil, the field of a cioutil RequestError, -1
      for any other error, a ciolite RequestError included (the type
      assertion names cioutil's own type). */
  function ErrorStatusCode(err: AnyError): (r: int)
    ensures err.NilError? ==> r == 0
    ensures err.UtilError? ==> r == err.utilErr.meta.statusCode
    ensures err.LiteError? || err.OtherError? ==> r == UnknownStatusCode
  {
    match err
    case NilError => 0
    case UtilError(e) => e.meta.statusCode
    case _ => UnknownStatusCode
  }

  /** ErrorPayload, ErrorMethod and ErrorURL: "" for nil, the field of a
      cioutil RequestError, "UNKNOWN" for any other error. */
  function ErrorPayload(err: AnyError): (r: string)
    ensures err.UtilError? ==> r == err.utilErr.meta.payload
    ensures !err.UtilError? ==> r == (if err.NilError? then "" else UnknownPayload)
  {
    match err
    case NilError => ""
    case UtilError(e) => e.meta.payload
    case _ => UnknownPayload
  }

  function ErrorMethod(err: AnyError): (r: string)
    ensures err.UtilError? ==> r == err.utilErr.meta.httpMethod
    ensures !err.UtilError? ==> r == (if err.NilError? then "" else UnknownMethod)
  {
    match err
    case NilError => ""
    case UtilError(e) => e.meta.httpMethod
    case _ => UnknownMethod
  }

  function ErrorURL(err: AnyError): (r: string)
    ensures err.UtilError? ==> r == err.utilErr.meta.url
    ensures !err.UtilError? ==> r == (if err.NilError? then "" else UnknownURL)
  {
    match err
    case NilError => ""
    case UtilError(e) => e.meta.url
    case _ => UnknownURL
  }

  /** The error value the package-level UnmarshalJSON helper returns: a nil
      interface or a cioutil RequestError. */
  function AsError(r: Option<RequestError>): (a: AnyError)
    ensures a.NilError? <==> r.None?
  {
    match r
    case None => NilError
    case Some(e) => UtilError(e)
  }

  /** Marshalling with the key "Error", then the helper: a RequestError
      again, with the same Error() text and the same answers from all four
      accessors. */
  lemma JsonRoundTrip(e: RequestError)
    ensures var r := UnmarshalHelper(ErrKey, MarshalJSON(ErrKey, e));
      var a := AsError(r.0);
      && r.1.None? && a.UtilError?
      && ErrorText(a.utilErr) == ErrorText(e)
      && ErrorStatusCode(a) == ErrorStatusCode(UtilError(e)) && ErrorPayload(a) == ErrorPayload(UtilError(e))
      && ErrorMethod(a) == ErrorMethod(UtilError(e)) && ErrorURL(a) == ErrorURL(UtilError(e))
  {
    HelperRoundTrip(ErrKey, e);
  }

  /** `null` reads back as the nil error, whose accessors give 0 and "". */
  lemma NullIsNil()
    ensures var r := UnmarshalHelper(ErrKey, "null");
      && r == (None, None)
      && ErrorStatusCode(AsError(r.0)) == 0 && ErrorPayload(AsError(r.0)) == ""
      && ErrorMethod(AsError(r.0)) == "" && ErrorURL(AsError(r.0)) == ""
  {
    HelperNullAndSyntax(ErrKey, "null");
  }
}

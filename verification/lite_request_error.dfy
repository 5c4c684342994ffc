/** ciolite's RequestError (ciolite/request_error.go): its accessor methods,
    and JSON under the key "Err". */
module LiteRequestError {
  import opened Base
  import opened Json
  import opened GoErrors
  import opened RequestErrors

  const ErrKey := "Err"

  function ErrorStatusCode(e: RequestError): Int64 { e.meta.statusCode }
  function ErrorPayload(e: RequestError): string { e.meta.payload }
  function ErrorMethod(e: RequestError): string { e.meta.httpMethod }
  function ErrorURL(e: RequestError): string { e.meta.url }

  /** MarshalJSON, then the package's UnmarshalJSON helper: the error comes
      back with the same Error() text, the same accessors and the root of
      its cause chain replaced by its whole text. */
  lemma JsonRoundTrip(e: RequestError)
    ensures var r := UnmarshalHelper(ErrKey, MarshalJSON(ErrKey, e));
      && r.1.None? && r.0.Some?
      && ErrorText(r.0.value) == ErrorText(e)
      && ErrorStatusCode(r.0.value) == ErrorStatusCode(e) && ErrorPayload(r.0.value) == ErrorPayload(e)
      && ErrorMethod(r.0.value) == ErrorMethod(e) && ErrorURL(r.0.value) == ErrorURL(e)
      && Message(RequestCause(r.0.value)) == Message(e.err)
  {
    HelperRoundTrip(ErrKey, e);
  }

  /** The wrapped error of the package's tests: errors.Wrap around
      fmt.Errorf("cause error"), status 500, payload "wrapped", PUT to
      https://cio. */
  const Wrapped500 := RequestError(Wrapped(Plain("cause error"), "outer error"), ErrorMetaData(500, "wrapped", "PUT", "https://cio"))

  /** Error() and `%+v` of the tests' wrapped error: the whole chain, then
      the metadata; `%+v` starts from the root cause. */
  lemma WrappedExampleText()
    ensures ErrorText(Wrapped500) == "outer error: cause error; " + MetaText(Wrapped500.meta)
    ensures Message(RequestCause(Wrapped500)) == "cause error"
    ensures Format(Wrapped500, VerbPlusV, x => x) == "cause error\nouter error\n" + MetaText(Wrapped500.meta)
  {
    hide MetaText;
    assert Message(Wrapped500.err) == "outer error: cause error";
    assert Verbose(Wrapped500.err) == "cause error\nouter error";
  }

  /** The metadata of the tests' wrapped error shows status "500". */
  lemma WrappedExampleStatus()
    ensures MetaText(Wrapped500.meta)[..16] == "{StatusCode:500 "
  {
    ItoaLastDigit(500);
    ItoaLastDigit(50);
    hide Itoa, Message, Verbose;
    assert MetaText(Wrapped500.meta) == "{StatusCode:" + "500" + (" Payload:" + "wrapped" + " Method:" + "PUT" + " URL:" + "https://cio" + "}");
  }
}

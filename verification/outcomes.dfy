/** What the network and the decoder did with one request, as far as the
    client code can tell. Both request pipelines classify these. */
module Outcomes {
  import opened Base
  import opened GoErrors

  /** http.NewRequest failed; the transport failed; the body could not be
      read completely (with the status and the text read so far); or the
      body was read, with json.Unmarshal's verdict on it. */
  datatype Outcome =
    | FormFailed(cause: GoError)
    | TransportFailed(cause: GoError)
    | ReadFailed(status: Int64, partial: string, cause: GoError)
    | Received(status: Int64, body: string, decodeErr: Option<GoError>)

  /** The outcomes the client accepts without error. */
  predicate Success(o: Outcome)
  {
    o.Received? && o.status < 400 && o.decodeErr.None?
  }
}

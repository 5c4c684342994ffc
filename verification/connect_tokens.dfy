/** The `expires` field of a connect token (ExpiresMixed), which the service
    sends either as `false` or as a Unix timestamp, and CheckConnectToken.
    Their Go bodies are not part of this model; both are modelled from the
    behaviour ciolite/lite_connect_tokens_test.go fixes. */
module ConnectTokens {
  import opened Base
  import opened Json
  import opened GoErrors

  /** `expires: None` is the Go nil pointer, read from `false`. */
  datatype ExpiresMixed = ExpiresMixed(expires: Option<Int64>)

  /** UnmarshalJSON: `false` is the absent state, an integer literal in the
      range of Go's int is stored, and any other JSON value is a type error
      for int. */
  function UnmarshalExpires(data: string): (r: Result<ExpiresMixed, JsonError>)
    ensures r.Ok? ==> Parse(data).Ok?
    ensures r.Ok? && r.value.expires.None? <==> Parse(data).Ok? && Parse(data).value.value == Bool(false)
    ensures r.Ok? && r.value.expires.Some? ==> Parse(data).value.value.Number?
  {
    match Parse(data)
    case Err(e) => Err(e)
    case Ok(n) =>
      match n.value
      case Bool(b) => if b then Err(UnmarshalType("bool", "int")) else Ok(ExpiresMixed(None))
      case Number(lit) =>
        var v := SignedDecimalValue(lit);
        if IntLiteral(lit) && v.Some? && MinInt64 <= v.value <= MaxInt64 then Ok(ExpiresMixed(Some(v.value)))
        else Err(UnmarshalType("number " + lit, "int"))
      case Null => Err(UnmarshalType("null", "int"))
      case String(_) => Err(UnmarshalType("string", "int"))
      case Array(_) => Err(UnmarshalType("array", "int"))
      case Object(_) => Err(UnmarshalType("object", "int"))
  }

  /** MarshalJSON: `false` for the absent state, else the bare integer. */
  function MarshalExpires(e: ExpiresMixed): (s: string)
    ensures |s| > 0
  {
    match e.expires
    case None => "false"
    case Some(n) => Itoa(n)
  }

  /** Unused(): true exactly when a timestamp is present. */
  function Unused(e: ExpiresMixed): bool
  {
    e.expires.Some?
  }

  /** Timestamp(): the stored timestamp, or -1 in the absent state. */
  function Timestamp(e: ExpiresMixed): int
  {
    match e.expires
    case None => -1
    case Some(n) => n
  }

  /** Marshalling then unmarshalling gives back the same state. */
  lemma MarshalRoundTrip(e: ExpiresMixed)
    ensures UnmarshalExpires(MarshalExpires(e)) == Ok(e)
  {
    match e.expires
    case None =>
      assert Serialize(Bool(false)) == "false";
      SerializeParse(Bool(false));
    case Some(n) =>
      ItoaIntLiteral(n);
      assert Serialize(Number(Itoa(n))) == Itoa(n);
      SerializeParse(Number(Itoa(n)));
      ItoaRoundTrip(n);
  }

  /** The two texts the service sends read back byte for byte: `false` is
      the absent state, not unused, with timestamp -1; an integer is
      present, unused, with that timestamp. */
  lemma TextRoundTrip(n: Int64)
    ensures var r := UnmarshalExpires("false");
      && r == Ok(ExpiresMixed(None)) && !Unused(r.value) && Timestamp(r.value) == -1
      && MarshalExpires(r.value) == "false"
    ensures var r := UnmarshalExpires(Itoa(n));
      && r == Ok(ExpiresMixed(Some(n))) && Unused(r.value) && Timestamp(r.value) == n
      && MarshalExpires(r.value) == Itoa(n)
  {
    MarshalRoundTrip(ExpiresMixed(None));
    MarshalRoundTrip(ExpiresMixed(Some(n)));
  }

  /** What unmarshalling accepts survives a second round: marshalled and
      read again, it is unchanged. */
  lemma UnmarshalStable(data: string)
    requires UnmarshalExpires(data).Ok?
    ensures UnmarshalExpires(MarshalExpires(UnmarshalExpires(data).value)) == UnmarshalExpires(data)
  {
    MarshalRoundTrip(UnmarshalExpires(data).value);
  }

  // ---------------------------------------------------------------------
  // CheckConnectToken

  /** The fields of GetConnectTokenResponse that CheckConnectToken reads. */
  datatype ConnectToken = ConnectToken(email: string, used: Int64, expires: ExpiresMixed)

  const EmailMismatch := Plain("Email does not match Context.io token")
  const NotUsedYet := Plain("Context.io token not used yet")

  /** A token is accepted for an email when it was issued for exactly that
      address and has been used. */
  predicate Accepted(token: ConnectToken, email: string)
  {
    email == token.email && token.used != 0
  }

  /** CheckConnectToken: the email is checked before the use. */
  function CheckConnectToken(token: ConnectToken, email: string): (err: Option<GoError>)
    ensures err.None? <==> Accepted(token, email)
    ensures email != token.email ==> err == Some(EmailMismatch)
    ensures email == token.email && !Accepted(token, email) ==> err == Some(NotUsedYet)
  {
    if email != token.email then Some(EmailMismatch)
    else if token.used == 0 then Some(NotUsedYet)
    else None
  }
}

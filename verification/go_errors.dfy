/** The error values the client builds: standard-library errors (errors.New,
    fmt.Errorf, and any foreign error, known only by its text) and the
    github.com/pkg/errors constructors New, Errorf and Wrap. Stack traces are
    not modelled, so `%+v` is rendered without them. */
module GoErrors {
  datatype GoError =
    /** A standard-library or foreign error: only its Error() text is known. */
    | Plain(msg: string)
    /** pkg/errors New or Errorf: a message with a recorded stack. */
    | Fundamental(msg: string)
    /** pkg/errors Wrap: an annotation around an underlying error. */
    | Wrapped(cause: GoError, msg: string)

  /** Error(): a Wrap prints its annotation, ": ", then the wrapped text. */
  function Message(e: GoError): string
  {
    match e
    case Plain(m) => m
    case Fundamental(m) => m
    case Wrapped(c, m) => m + ": " + Message(c)
  }

  /** `%+v` without stack traces: the innermost error first, then each
      annotation on a line of its own. */
  function Verbose(e: GoError): string
  {
    match e
    case Plain(m) => m
    case Fundamental(m) => m
    case Wrapped(c, m) => Verbose(c) + "\n" + m
  }

  /** errors.Cause: follow Cause() while the error has one. */
  function Cause(e: GoError): (r: GoError)
    ensures !r.Wrapped?
    ensures !e.Wrapped? ==> r == e
  {
    match e
    case Wrapped(c, _) => Cause(c)
    case _ => e
  }

  /** The message of the whole chain ends with the message of its cause, and
      the verbose form starts with it. */
  lemma {:induction false} CauseAtEnds(e: GoError)
    ensures var m := Message(e); var c := Message(Cause(e));
      |c| <= |m| && m[|m| - |c|..] == c
    ensures var v := Verbose(e); var c := Message(Cause(e));
      |c| <= |v| && v[..|c|] == c
  {
    match e
    case Wrapped(inner, m) =>
      CauseAtEnds(inner);
      var whole := Message(e);
      var rest := Message(inner);
      assert whole == m + ": " + rest;
      assert whole[|whole| - |rest|..] == rest;
      assert Verbose(e) == Verbose(inner) + "\n" + m;
    case _ =>
  }

  /** Cause is idempotent. */
  lemma CauseIdempotent(e: GoError)
    ensures Cause(Cause(e)) == Cause(e)
  {
  }
}

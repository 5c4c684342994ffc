/** The RequestError both packages declare (ciolite/request_error.go and
    cioutil/request_error.go): an error plus the status code, payload,
    method and URL of the request that failed. The two differ only in the
    JSON key of the error text, "Err" in ciolite and "Error" in cioutil, so
    the codec takes that key as a parameter. */
module RequestErrors {
  import opened Base
  import opened Json
  import opened GoErrors
  import opened GoJson

  datatype ErrorMetaData = ErrorMetaData(statusCode: Int64, payload: string, httpMethod: string, url: string)

  const NoMetaData := ErrorMetaData(0, "", "", "")

  /** The error field may hold any error; a nil one is not modelled. */
  datatype RequestError = RequestError(err: GoError, meta: ErrorMetaData)

  /** `%+v` of ErrorMetaData: the field names and values in braces. */
  function MetaText(m: ErrorMetaData): string
  {
    "{StatusCode:" + Itoa(m.statusCode) + " Payload:" + m.payload + " Method:" + m.httpMethod + " URL:" + m.url + "}"
  }

  /** Error(): the error's text, "; ", then the metadata. */
  function ErrorText(e: RequestError): (s: string)
  {
    Message(e.err) + "; " + MetaText(e.meta)
  }

  /** Cause(): the cause of the error inside, found with errors.Cause. */
  function RequestCause(e: RequestError): GoError
  {
    Cause(e.err)
  }

  /** A value of Go's `error` interface as the accessor functions see it:
      nil, a RequestError of either package, or any other error. */
  datatype AnyError =
    | NilError
    | LiteError(liteErr: RequestError)
    | UtilError(utilErr: RequestError)
    | OtherError(other: GoError)

  /** The verbs Format handles; any other one writes nothing. */
  datatype Verb = VerbV | VerbPlusV | VerbS | VerbQ | VerbOther

  /** Format: `%+v` prints the error with its causes, a newline and the
      metadata; `%v` and `%s` print Error(); `%q` prints Error() quoted by
      `quote`, which stands for Go's %q. */
  function Format(e: RequestError, verb: Verb, quote: string -> string): string
  {
    match verb
    case VerbPlusV => Verbose(e.err) + "\n" + MetaText(e.meta)
    case VerbV => ErrorText(e)
    case VerbS => ErrorText(e)
    case VerbQ => quote(ErrorText(e))
    case VerbOther => ""
  }

  // ---------------------------------------------------------------------
  // JSON

  /** The Temp struct MarshalJSON and UnmarshalJSON use: the error text under
      `errKey`, then the promoted metadata fields. */
  function TempFields(errKey: string): seq<FieldSpec>
  {
    [FieldSpec(errKey, TString), FieldSpec("StatusCode", TInt), FieldSpec("Payload", TString),
     FieldSpec("Method", TString), FieldSpec("URL", TString)]
  }

  function Field(key: string, v: Value): Member
  {
    Member(key, Node(Serialize(v), v))
  }

  /** The JSON value json.Marshal writes for Temp{e.Err.Error(), e.meta}. */
  function TempValue(errKey: string, e: RequestError): Value
  {
    Object([
      Field(errKey, String(Message(e.err))),
      Field("StatusCode", Number(Itoa(e.meta.statusCode))),
      Field("Payload", String(e.meta.payload)),
      Field("Method", String(e.meta.httpMethod)),
      Field("URL", String(e.meta.url))])
  }

  /** MarshalJSON. */
  function MarshalJSON(errKey: string, e: RequestError): string
  {
    Serialize(TempValue(errKey, e))
  }

  function StringField(fields: seq<GoValue>, k: nat): string
  {
    if k < |fields| && fields[k].GString? then fields[k].s else ""
  }

  /** The RequestError a decoded Temp gives: the error text becomes a new
      error (errors.New) with that text. */
  function FromTemp(v: GoValue): RequestError
  {
    var fs := if v.GStruct? then v.fields else [];
    var code := if |fs| > 1 && fs[1].GInt? && MinInt64 <= fs[1].i <= MaxInt64 then fs[1].i else 0;
    RequestError(Fundamental(StringField(fs, 0)),
      ErrorMetaData(code, StringField(fs, 2), StringField(fs, 3), StringField(fs, 4)))
  }

  /** The (*RequestError).UnmarshalJSON method: the receiver is set from the
      Temp that json.Unmarshal filled in, even when that reported an error
      (then the fields decoded before and after the bad one are kept), and
      the error is returned. */
  function UnmarshalMethod(errKey: string, data: string): (r: (RequestError, Option<JsonError>))
  {
    var t := TStruct(TempFields(errKey));
    match Parse(data)
    case Err(e) => (FromTemp(Zero(t)), Some(e))
    case Ok(n) =>
      match Decode(t, Zero(t), n)
      case Done(v, s) => (FromTemp(v), s)
      case Abort(e) => (FromTemp(Zero(t)), Some(e))
  }

  /** The package-level UnmarshalJSON helper: the JSON `null` gives a nil
      error and no failure; any other value goes through the method, and a
      failure of the method discards the error it built. */
  function UnmarshalHelper(errKey: string, data: string): (r: (Option<RequestError>, Option<JsonError>))
  {
    match Parse(data)
    case Err(e) => (None, Some(e))
    case Ok(n) =>
      if n.value.Null? then (None, None)
      else
        var (e, err) := UnmarshalMethod(errKey, n.raw);
        if err.Some? then (None, err) else (Some(e), None)
  }

  // ---------------------------------------------------------------------
  // Properties

  /** The text of the error ends with the text of its cause, so Error()
      shows the root cause just before the metadata; `%+v` starts with it. */
  lemma CauseShown(e: RequestError)
    ensures var c := Message(RequestCause(e)); var s := ErrorText(e);
      var end := |Message(e.err)|;
      |c| <= end && s[end - |c|..end] == c && s[end..] == "; " + MetaText(e.meta)
    ensures var c := Message(RequestCause(e)); var p := Format(e, VerbPlusV, x => x);
      |c| <= |p| && p[..|c|] == c
  {
    CauseBeforeMeta(e);
    CauseFirstInVerbose(e);
  }

  lemma CauseBeforeMeta(e: RequestError)
    ensures var c := Message(RequestCause(e)); var s := ErrorText(e);
      var end := |Message(e.err)|;
      |c| <= end && s[end - |c|..end] == c && s[end..] == "; " + MetaText(e.meta)
  {
    CauseAtEnds(e.err);
    SuffixThenTail(Message(e.err), Message(RequestCause(e)), "; ", MetaText(e.meta));
    hide Message, Verbose, Cause, MetaText, RequestCause;
  }

  /** A suffix `c` of `m` stays just before whatever is appended to `m`. */
  lemma SuffixThenTail(m: string, c: string, sep: string, tail: string)
    requires |c| <= |m| && m[|m| - |c|..] == c
    ensures var s := m + sep + tail;
      s[|m| - |c|..|m|] == c && s[|m|..] == sep + tail
  {
    var s := m + sep + tail;
    assert s[..|m|] == m;
    assert s[|m| - |c|..|m|] == m[|m| - |c|..];
  }

  lemma CauseFirstInVerbose(e: RequestError)
    ensures var c := Message(RequestCause(e)); var p := Format(e, VerbPlusV, x => x);
      |c| <= |p| && p[..|c|] == c
  {
    CauseAtEnds(e.err);
    var c := Message(RequestCause(e));
    var meta := MetaText(e.meta);
    var v := Verbose(e.err);
    assert Format(e, VerbPlusV, x => x) == v + "\n" + meta;
    hide Message, Verbose, Cause, MetaText, Format, RequestCause;
    var p := v + "\n" + meta;
    assert p[..|v|] == v;
  }

  lemma TempWellFormed(errKey: string, e: RequestError)
    ensures WellFormed(TempValue(errKey, e))
  {
    ItoaIntLiteral(e.meta.statusCode);
  }

  /** The tree Parse builds from MarshalJSON's text. */
  lemma TempParsed(errKey: string, e: RequestError)
    ensures Parse(MarshalJSON(errKey, e)) == Ok(Node(MarshalJSON(errKey, e), TempValue(errKey, e)))
  {
    TempWellFormed(errKey, e);
    SerializeParse(TempValue(errKey, e));
    var ms := TempValue(errKey, e).members;
    assert AnnotateMembers(ms) == ms by {
      assert AnnotateMembers(ms[4..]) == ms[4..];
      assert AnnotateMembers(ms[3..]) == ms[3..];
      assert AnnotateMembers(ms[2..]) == ms[2..];
      assert AnnotateMembers(ms[1..]) == ms[1..];
    }
  }

  /** Each member of MarshalJSON's text selects its own field of Temp. */
  lemma TempKeys(errKey: string, e: RequestError)
    requires errKey == "Err" || errKey == "Error"
    ensures var fs := TempFields(errKey); var ms := TempValue(errKey, e).members;
      forall k :: 0 <= k < 5 ==> FieldIndex(fs, ms[k].key) == Some(k)
  {
    var fs := TempFields(errKey);
    var ms := TempValue(errKey, e).members;
    assert DistinctTags(fs);
    forall k | 0 <= k < 5
      ensures FieldIndex(fs, ms[k].key) == Some(k)
    {
      assert ms[k].key == fs[k].key;
      TagSelects(fs, k);
    }
  }

  /** Temp's field values for a RequestError. */
  function TempFieldValues(e: RequestError): seq<GoValue>
  {
    [GString(Message(e.err)), GInt(e.meta.statusCode), GString(e.meta.payload), GString(e.meta.httpMethod), GString(e.meta.url)]
  }

  /** Each member of MarshalJSON's text decodes cleanly into its field. */
  lemma TempMembers(errKey: string, e: RequestError)
    ensures var fs := TempFields(errKey); var ms := TempValue(errKey, e).members;
      forall k :: 0 <= k < 5 ==> Decode(fs[k].typ, ZeroFields(fs)[k], ms[k].node) == Done(TempFieldValues(e)[k], None)
  {
    TempStatusMember(errKey, e);
    TempTextMembers(errKey, e);
  }

  /** The status code is written in decimal and read back as that int. */
  lemma TempStatusMember(errKey: string, e: RequestError)
    ensures var fs := TempFields(errKey); var ms := TempValue(errKey, e).members;
      Decode(fs[1].typ, ZeroFields(fs)[1], ms[1].node) == Done(TempFieldValues(e)[1], None)
  {
    IntValueItoa(e.meta.statusCode);
    hide DecodeItems, DecodeEntries, DecodeFields, FieldIndex, Serialize, Message, Itoa, IntValue;
  }

  /** The error text and the three strings are read back as they were. */
  lemma TempTextMembers(errKey: string, e: RequestError)
    ensures var fs := TempFields(errKey); var ms := TempValue(errKey, e).members;
      forall k :: 0 <= k < 5 && k != 1 ==> Decode(fs[k].typ, ZeroFields(fs)[k], ms[k].node) == Done(TempFieldValues(e)[k], None)
  {
    var fs := TempFields(errKey);
    var ms := TempValue(errKey, e).members;
    hide DecodeItems, DecodeEntries, DecodeFields, FieldIndex, Serialize, Message, Itoa, IntValue;
    var zero := ZeroFields(fs);
    var want := TempFieldValues(e);
    assert Decode(fs[0].typ, zero[0], ms[0].node) == Done(want[0], None);
    assert Decode(fs[2].typ, zero[2], ms[2].node) == Done(want[2], None);
    assert Decode(fs[3].typ, zero[3], ms[3].node) == Done(want[3], None);
    assert Decode(fs[4].typ, zero[4], ms[4].node) == Done(want[4], None);
  }

  /** Temp's fields after decoding MarshalJSON's members. */
  lemma TempDecoded(errKey: string, e: RequestError)
    requires errKey == "Err" || errKey == "Error"
    ensures var fs := TempFields(errKey);
      DecodeFields(fs, ZeroFields(fs), TempValue(errKey, e).members, None) == Done(GStruct(TempFieldValues(e)), None)
  {
    var fs := TempFields(errKey);
    var ms := TempValue(errKey, e).members;
    TempKeys(errKey, e);
    TempMembers(errKey, e);
    hide Decode, FieldIndex, TempValue, TempFieldValues;
    FieldsInOrder(fs, ZeroFields(fs), ms, 0, None);
    assert ms[0..] == ms;
    var r := DecodeFields(fs, ZeroFields(fs), ms, None);
    assert r.value.fields == TempFieldValues(e);
  }

  /** The method reads back what MarshalJSON wrote, without error: the
      metadata is kept and the error keeps its text but loses its causes. */
  lemma MethodRoundTrip(errKey: string, e: RequestError)
    requires errKey == "Err" || errKey == "Error"
    ensures UnmarshalMethod(errKey, MarshalJSON(errKey, e)) == (RequestError(Fundamental(Message(e.err)), e.meta), None)
  {
    TempParsed(errKey, e);
    TempNodeDecoded(errKey, e);
    assert FromTemp(GStruct(TempFieldValues(e))) == RequestError(Fundamental(Message(e.err)), e.meta);
    hide Decode, DecodeFields, DecodeItems, DecodeEntries, Serialize, FieldIndex, Parse, Message, Itoa, MetaText;
  }

  /** Temp after decoding the tree of MarshalJSON's text. */
  lemma TempNodeDecoded(errKey: string, e: RequestError)
    requires errKey == "Err" || errKey == "Error"
    ensures var t := TStruct(TempFields(errKey));
      Decode(t, Zero(t), Node(MarshalJSON(errKey, e), TempValue(errKey, e))) == Done(GStruct(TempFieldValues(e)), None)
  {
    TempDecoded(errKey, e);
    hide DecodeFields, DecodeItems, DecodeEntries, Serialize, FieldIndex, Parse, Message, Itoa, MetaText, TempFieldValues;
  }

  /** The helper reads back what MarshalJSON wrote: a RequestError with the
      same Error() text and metadata, and no failure. */
  lemma HelperRoundTrip(errKey: string, e: RequestError)
    requires errKey == "Err" || errKey == "Error"
    ensures var r := UnmarshalHelper(errKey, MarshalJSON(errKey, e));
      && r == (Some(RequestError(Fundamental(Message(e.err)), e.meta)), None)
      && ErrorText(r.0.value) == ErrorText(e)
  {
    TempParsed(errKey, e);
    MethodRoundTrip(errKey, e);
  }

  /** `null` is the nil error; text that is not JSON is a failure and no
      error value. */
  lemma HelperNullAndSyntax(errKey: string, data: string)
    ensures UnmarshalHelper(errKey, "null") == (None, None)
    ensures Parse(data).Err? ==> UnmarshalHelper(errKey, data) == (None, Some(Syntax))
  {
    assert Serialize(Null) == "null";
    SerializeParse(Null);
  }
}

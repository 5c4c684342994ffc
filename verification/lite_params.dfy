/** The loose, reflection-driven parameter codec of the lite client
    (ciolite/params.go): a string field is written when non-empty, a bool
    field as "1" when true, an int field in decimal when non-zero; the
    `omitempty` option is never consulted, so a zero field is always left out. */
module LiteParams {
  import opened Base
  import opened ParamFields
  import opened UrlValues

  /** jsonName: the key part of the field's json tag; a tag that is empty or
      starts with a comma has no key, which is a programming error. */
  function JsonName(f: Field): (r: Result<string, Panic>)
    ensures r.Ok? <==> TagName(f.tag) != ""
    ensures r.Ok? ==> r.value == TagName(f.tag)
    ensures r.Err? ==> r.error == MissingTagPanic(f)
  {
    var indexComma := Index(f.tag, ",");
    OccursAtChar(f.tag, ',', indexComma);
    CutFirst(f.tag, ',');
    if |f.tag| == 0 || indexComma == 0 then Err(MissingTagPanic(f))
    else if indexComma >= 0 then Ok(f.tag[..indexComma])
    else Ok(f.tag)
  }

  /** Whether a field is written at all: its value is not its kind's zero. */
  predicate Written(f: Field) { Supported(f.value) && !IsZero(f.value) }

  /** The Values.Set call made for one field, if any. The key is looked up
      only for a field that is written, so an untagged zero field is harmless. */
  function FieldSet(f: Field): Result<Option<(string, string)>, Panic>
  {
    match f.value
    case StringValue(s) =>
      if |s| > 0 then var k :- JsonName(f); Ok(Some((k, s))) else Ok(None)
    case BoolValue(b) =>
      if b then var k :- JsonName(f); Ok(Some((k, "1"))) else Ok(None)
    case IntValue(i) =>
      if i != 0 then var k :- JsonName(f); Ok(Some((k, Itoa(i)))) else Ok(None)
    case OtherKind(kind) => Err(UnexpectedKindPanic(kind))
  }

  /** The Set calls for the fields in declaration order; the first panic
      aborts the walk. */
  function FieldSets(fs: seq<Field>): Result<seq<(string, string)>, Panic>
    decreases |fs|
  {
    if |fs| == 0 then Ok([])
    else
      var here :- FieldSet(fs[0]);
      var rest :- FieldSets(fs[1..]);
      Ok((if here.Some? then [here.value] else []) + rest)
  }

  /** FormValues: `None` stands for a nil interface argument. */
  function FormValues(params: Option<seq<Field>>): (r: Result<seq<Entry>, Panic>)
    ensures r.Ok? ==> Sorted(r.value)
    ensures params.None? ==> r == Ok([])
  {
    match params
    case None => Ok([])
    case Some(fs) =>
      var sets :- FieldSets(fs);
      Ok(Build([], sets))
  }

  /** QueryString: "" when nothing is written, otherwise "?" and the
      key-sorted encoding. */
  function QueryString(params: Option<seq<Field>>): Result<string, Panic>
  {
    var values :- FormValues(params);
    Ok(QueryStringOf(values))
  }

  // ---------------------------------------------------------------------
  // Properties

  /** A field can be encoded: its kind is supported and, if it is written,
      its tag names a key. */
  predicate Encodable(f: Field)
  {
    Supported(f.value) && (Written(f) ==> TagName(f.tag) != "")
  }

  /** The panic the first non-encodable field raises. */
  function FieldPanic(f: Field): Panic
  {
    if f.value.OtherKind? then UnexpectedKindPanic(f.value.kind) else MissingTagPanic(f)
  }

  /** The codec succeeds exactly when every field is encodable; otherwise it
      panics with the message of the first field that is not: the kind
      message for an unsupported kind, the tag message for a written field
      without a key. */
  lemma FormValuesPanics(fs: seq<Field>)
    ensures FormValues(Some(fs)).Ok? <==> forall i :: 0 <= i < |fs| ==> Encodable(fs[i])
    ensures forall i :: 0 <= i < |fs| && !Encodable(fs[i]) && (forall k :: 0 <= k < i ==> Encodable(fs[k])) ==>
      FormValues(Some(fs)) == Err(FieldPanic(fs[i]))
  {
    FieldSetsPanics(fs);
    hide FieldSets, Build;
  }

  /** One field's Set call panics exactly when the field is not encodable,
      with that field's message. */
  lemma FieldSetPanics(f: Field)
    ensures FieldSet(f).Ok? <==> Encodable(f)
    ensures FieldSet(f).Err? ==> FieldSet(f).error == FieldPanic(f)
  {
  }

  lemma {:induction false} FieldSetsPanics(fs: seq<Field>)
    ensures FieldSets(fs).Ok? <==> forall i :: 0 <= i < |fs| ==> Encodable(fs[i])
    ensures forall i :: 0 <= i < |fs| && !Encodable(fs[i]) && (forall k :: 0 <= k < i ==> Encodable(fs[k])) ==>
      FieldSets(fs) == Err(FieldPanic(fs[i]))
    decreases |fs|
  {
    if |fs| > 0 {
      FieldSetsPanics(fs[1..]);
      FieldSetPanics(fs[0]);
      hide FieldSet, Encodable, FieldPanic;
      assert forall i :: 1 <= i < |fs| ==> fs[i] == fs[1..][i - 1];
      forall i | 0 <= i < |fs| && !Encodable(fs[i]) && (forall k :: 0 <= k < i ==> Encodable(fs[k]))
        ensures FieldSets(fs) == Err(FieldPanic(fs[i]))
      {
        if i > 0 {
          assert Encodable(fs[0]);
          assert forall k :: 0 <= k < i - 1 ==> Encodable(fs[1..][k]) by {
            forall k | 0 <= k < i - 1 ensures Encodable(fs[1..][k]) { assert fs[1..][k] == fs[k + 1]; }
          }
        }
      }
    }
  }

  /** What FieldSets writes: exactly one (key, text) step per written field. */
  lemma {:induction false} FieldSetsMembers(fs: seq<Field>)
    requires FieldSets(fs).Ok?
    ensures forall p :: p in FieldSets(fs).value ==>
      exists i :: 0 <= i < |fs| && Written(fs[i]) && p == (TagName(fs[i].tag), Render(fs[i].value))
    ensures forall i :: 0 <= i < |fs| && Written(fs[i]) ==>
      (TagName(fs[i].tag), Render(fs[i].value)) in FieldSets(fs).value
    decreases |fs|
  {
    if |fs| > 0 {
      FieldSetsMembers(fs[1..]);
      var sets := FieldSets(fs).value;
      var rest := FieldSets(fs[1..]).value;
      var here := FieldSet(fs[0]).value;
      assert sets == (if here.Some? then [here.value] else []) + rest;
      forall p | p in sets
        ensures exists i :: 0 <= i < |fs| && Written(fs[i]) && p == (TagName(fs[i].tag), Render(fs[i].value))
      {
        if p in rest {
          var i :| 0 <= i < |fs[1..]| && Written(fs[1..][i]) && p == (TagName(fs[1..][i].tag), Render(fs[1..][i].value));
          assert fs[1..][i] == fs[i + 1];
        } else {
          assert p == here.value;
          assert Written(fs[0]) && p == (TagName(fs[0].tag), Render(fs[0].value));
        }
      }
      forall i | 0 <= i < |fs| && Written(fs[i])
        ensures (TagName(fs[i].tag), Render(fs[i].value)) in sets
      {
        if i > 0 { assert fs[i] == fs[1..][i - 1]; }
      }
    }
  }

  /** Field by field: a field whose key no other written field shares ends up
      under its key, holding its rendered value, exactly when it is non-zero.
      So a string is present verbatim iff non-empty, a bool is "1" iff true
      and absent when false, an int is its decimal text iff non-zero. */
  lemma FieldPresence(fs: seq<Field>, j: int)
    requires 0 <= j < |fs|
    requires FormValues(Some(fs)).Ok?
    requires forall i :: 0 <= i < |fs| && i != j && Written(fs[i]) ==> TagName(fs[i].tag) != TagName(fs[j].tag)
    ensures Supported(fs[j].value)
    ensures Lookup(FormValues(Some(fs)).value, TagName(fs[j].tag)) ==
      (if IsZero(fs[j].value) then None else Some([Render(fs[j].value)]))
  {
    FormValuesPanics(fs);
    var sets := FieldSets(fs).value;
    var key := TagName(fs[j].tag);
    FieldSetsMembers(fs);
    BuildLookup([], sets, key);
    match LastSet(sets, key)
    case Some(v) =>
      var i :| 0 <= i < |fs| && Written(fs[i]) && (key, v) == (TagName(fs[i].tag), Render(fs[i].value));
      assert i == j;
    case None =>
  }

  /** The `omitempty` option (indeed everything after the first comma of a
      tag) is ignored: fields whose tags share their key part encode alike. */
  lemma OmitEmptyIgnored(fs: seq<Field>, gs: seq<Field>)
    requires |fs| == |gs|
    requires forall i :: 0 <= i < |fs| ==>
      fs[i].name == gs[i].name && fs[i].value == gs[i].value && TagName(fs[i].tag) == TagName(gs[i].tag)
    ensures FormValues(Some(fs)) == FormValues(Some(gs))
  {
    FieldSetsAlike(fs, gs);
  }

  lemma {:induction false} FieldSetsAlike(fs: seq<Field>, gs: seq<Field>)
    requires |fs| == |gs|
    requires forall i :: 0 <= i < |fs| ==>
      fs[i].name == gs[i].name && fs[i].value == gs[i].value && TagName(fs[i].tag) == TagName(gs[i].tag)
    ensures FieldSets(fs) == FieldSets(gs)
    decreases |fs|
  {
    if |fs| > 0 {
      FieldSetAlike(fs[0], gs[0]);
      hide FieldSet;
      FieldSetsAlike(fs[1..], gs[1..]);
    }
  }

  lemma FieldSetAlike(f: Field, g: Field)
    requires f.name == g.name && f.value == g.value && TagName(f.tag) == TagName(g.tag)
    ensures FieldSet(f) == FieldSet(g)
  {
    hide Itoa, JsonName, TagName, Index;
    assert MissingTagPanic(f) == MissingTagPanic(g);
    assert JsonName(f) == JsonName(g);
  }

  /** A nil argument gives the empty string, not "?". */
  lemma NilQueryString()
    ensures QueryString(None) == Ok("")
  {
  }

  /** The query string parses back to exactly the written (key, value) pairs. */
  lemma QueryStringParses(params: Option<seq<Field>>)
    requires QueryString(params).Ok? && QueryString(params).value != ""
    ensures var vs := FormValues(params).value;
      ParseQuery(QueryString(params).value[1..]) == (BytePairs(Pairs(vs)), None)
  {
    QueryStringRoundTrip(FormValues(params).value);
  }
}

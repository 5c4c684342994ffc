/** The strict, `omitempty`-aware parameter codec of the cioutil package,
    whose behaviour is fixed by cioutil/params_test.go: a field whose tag lacks
    `omitempty` is always written (false as "0", 0 as "0", "" as ""); a field
    whose tag has it is written only when non-zero. Its implementation is not
    part of this model, so only field kinds and tags the test exercises
    (string, bool and int fields with a named tag) are in its domain. */
module StrictParams {
  import opened Base
  import opened ParamFields
  import opened UrlValues
  import LiteParams

  /** The fields the test exercises: a supported kind and a named tag. */
  predicate InDomain(f: Field) { Supported(f.value) && TagName(f.tag) != "" }

  /** Whether a field is written: always without `omitempty`, otherwise only
      when non-zero. */
  predicate Included(f: Field)
  {
    !OmitEmpty(f.tag) || !IsZero(f.value)
  }

  function FieldSets(fs: seq<Field>): (sets: seq<(string, string)>)
    requires forall i :: 0 <= i < |fs| ==> InDomain(fs[i])
    decreases |fs|
  {
    if |fs| == 0 then []
    else
      assert InDomain(fs[0]);
      (if Included(fs[0]) then [(TagName(fs[0].tag), Render(fs[0].value))] else [])
      + FieldSets(fs[1..])
  }

  function FormValues(fs: seq<Field>): (vs: seq<Entry>)
    requires forall i :: 0 <= i < |fs| ==> InDomain(fs[i])
    ensures Sorted(vs)
  {
    Build([], FieldSets(fs))
  }

  function QueryString(fs: seq<Field>): (q: string)
    requires forall i :: 0 <= i < |fs| ==> InDomain(fs[i])
    ensures q == "" <==> Pairs(FormValues(fs)) == []
    ensures q != "" ==> q[0] == '?' && ParseQuery(q[1..]) == (BytePairs(Pairs(FormValues(fs))), None)
  {
    var vs := FormValues(fs);
    var q := QueryStringOf(vs);
    if q == "" then q else QueryStringRoundTrip(vs); q
  }

  // ---------------------------------------------------------------------
  // Properties

  lemma {:induction false} FieldSetsMembers(fs: seq<Field>)
    requires forall i :: 0 <= i < |fs| ==> InDomain(fs[i])
    ensures forall p :: p in FieldSets(fs) ==>
      exists i :: 0 <= i < |fs| && Included(fs[i]) && p == (TagName(fs[i].tag), Render(fs[i].value))
    ensures forall i :: 0 <= i < |fs| && InDomain(fs[i]) && Included(fs[i]) ==>
      (TagName(fs[i].tag), Render(fs[i].value)) in FieldSets(fs)
    decreases |fs|
  {
    if |fs| > 0 {
      FieldSetsMembers(fs[1..]);
      var sets := FieldSets(fs);
      var rest := FieldSets(fs[1..]);
      forall p | p in sets
        ensures exists i :: 0 <= i < |fs| && Included(fs[i]) && p == (TagName(fs[i].tag), Render(fs[i].value))
      {
        if p in rest {
          var i :| 0 <= i < |fs[1..]| && Included(fs[1..][i])
            && p == (TagName(fs[1..][i].tag), Render(fs[1..][i].value));
          assert fs[1..][i] == fs[i + 1];
        }
      }
      forall i | 0 <= i < |fs| && InDomain(fs[i]) && Included(fs[i])
        ensures (TagName(fs[i].tag), Render(fs[i].value)) in sets
      {
        if i > 0 { assert fs[i] == fs[1..][i - 1]; }
      }
    }
  }

  /** Field by field: a field whose key no other written field shares is
      present, holding its rendered value ("0"/"1" for a bool, decimal for an
      int, the string verbatim even when empty), exactly when its tag lacks
      `omitempty` or its value is non-zero. */
  lemma FieldPresence(fs: seq<Field>, j: int)
    requires forall i :: 0 <= i < |fs| ==> InDomain(fs[i])
    requires 0 <= j < |fs|
    requires forall i :: 0 <= i < |fs| && i != j && Included(fs[i]) ==> TagName(fs[i].tag) != TagName(fs[j].tag)
    ensures Lookup(FormValues(fs), TagName(fs[j].tag)) ==
      (if Included(fs[j]) then Some([Render(fs[j].value)]) else None)
  {
    var sets := FieldSets(fs);
    var key := TagName(fs[j].tag);
    FieldSetsMembers(fs);
    BuildLookup([], sets, key);
    match LastSet(sets, key)
    case Some(v) =>
      var i :| 0 <= i < |fs| && Included(fs[i]) && (key, v) == (TagName(fs[i].tag), Render(fs[i].value));
      assert i == j;
    case None =>
  }

  /** Without `omitempty` a zero field is still written, as "0" or "". */
  lemma ZeroWithoutOmitEmpty(fs: seq<Field>, j: int)
    requires forall i :: 0 <= i < |fs| ==> InDomain(fs[i])
    requires 0 <= j < |fs| && !OmitEmpty(fs[j].tag) && IsZero(fs[j].value)
    requires forall i :: 0 <= i < |fs| && i != j && Included(fs[i]) ==> TagName(fs[i].tag) != TagName(fs[j].tag)
    ensures Lookup(FormValues(fs), TagName(fs[j].tag)) == Some([if fs[j].value.StringValue? then "" else "0"])
  {
    FieldPresence(fs, j);
  }

  /** When every tag carries `omitempty` the strict codec writes exactly what
      the loose codec of the lite client writes. */
  lemma {:induction false} AgreesWithLooseCodec(fs: seq<Field>)
    requires forall i :: 0 <= i < |fs| ==> InDomain(fs[i]) && OmitEmpty(fs[i].tag)
    ensures LiteParams.FormValues(Some(fs)) == Ok(FormValues(fs))
  {
    SetsAgree(fs);
  }

  lemma {:induction false} SetsAgree(fs: seq<Field>)
    requires forall i :: 0 <= i < |fs| ==> InDomain(fs[i]) && OmitEmpty(fs[i].tag)
    ensures LiteParams.FieldSets(fs) == Ok(FieldSets(fs))
    decreases |fs|
  {
    if |fs| > 0 {
      SetsAgree(fs[1..]);
      FieldAgrees(fs[0]);
    }
  }

  lemma FieldAgrees(f: Field)
    requires InDomain(f) && OmitEmpty(f.tag)
    ensures LiteParams.FieldSet(f) ==
      Ok(if Included(f) then Some((TagName(f.tag), Render(f.value))) else None)
  {
  }
}

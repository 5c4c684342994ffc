/** The older WebhookMessageDataAddresses of ciolite/api_users_webhooks.go.
    Its UnmarshalJSON has the same `[]` sentinel, but From and the list
    elements are anonymous structs with no decoder of their own, so they do
    not accept `[]`. */
module FlexibleApi {
  import opened Base
  import opened Json
  import opened GoJson
  import FlexibleLite

  /** struct { Email string `json:"email"`; Name string `json:"name"` } */
  const Person := TStruct(FlexibleLite.AddressFields)

  const WebhookAddressFields := [
    FieldSpec("from", Person), FieldSpec("to", TSlice(Person)),
    FieldSpec("cc", TSlice(Person)), FieldSpec("bcc", TSlice(Person)),
    FieldSpec("sender", TSlice(Person)), FieldSpec("reply_to", TSlice(Person))]
  const WebhookAddressStruct := TStruct(WebhookAddressFields)
  const WebhookAddresses := TFlexible(WebhookAddressStruct)

  lemma StructIsPlain()
    ensures forall k :: 0 <= k < |WebhookAddressFields| ==> Plain(WebhookAddressFields[k].typ)
  {
    assert Plain(Person);
  }

  /** `"from": []` is a type error here, whatever follows it: decoding reads
      the whole object, reports that first error, and the receiver keeps its
      value. */
  lemma FromArrayRejected(data: string, cur: GoValue, from: Node, rest: seq<Member>)
    requires Parse(data).Ok? && Parse(data).value.value == Object([Member("from", from)] + rest)
    requires from.value.Array?
    ensures FlexibleUnmarshal(WebhookAddressStruct, data, cur) == (cur, Some(UnmarshalType("array", "struct")))
  {
    EmptyArrayText();
    var fs := WebhookAddressFields;
    var members := [Member("from", from)] + rest;
    var err := UnmarshalType("array", "struct");
    assert FieldIndex(fs, "from") == Some(0);
    assert Decode(Person, ZeroFields(fs)[0], from) == Done(ZeroFields(fs)[0], Some(err));
    assert members[1..] == rest;
    assert ZeroFields(fs)[0 := ZeroFields(fs)[0]] == ZeroFields(fs);
    assert DecodeFields(fs, ZeroFields(fs), members, None) == DecodeFields(fs, ZeroFields(fs), rest, Some(err));
    StructIsPlain();
    FieldsNeverAbort(fs, ZeroFields(fs), rest, Some(err));
  }

  /** `from` as an object of strings is accepted: From holds the Address
      its members give, and the rest of the object alone decides whether
      decoding succeeds, as with the newer type. */
  lemma FromObject(data: string, cur: GoValue, from: Node, rest: seq<Member>)
    requires Parse(data).Ok? && Parse(data).value.value == Object([Member("from", from)] + rest)
    requires from.value.Object? && FlexibleLite.StringMembers(from.value.members)
    requires forall k :: 0 <= k < |rest| ==> FieldIndex(WebhookAddressFields, rest[k].key) != Some(0)
    ensures var r := FlexibleUnmarshal(WebhookAddressStruct, data, cur);
      && (r.1.None? <==> forall k :: 0 <= k < |rest| ==> FieldFits(WebhookAddressFields, rest[k]))
      && (r.1.None? ==> r.0.fields[0] == FlexibleLite.AddressOf(from.value.members))
  {
    EmptyArrayText();
    hide DecodeItems, DecodeEntries, Fits;
    var fs := WebhookAddressFields;
    var members := [Member("from", from)] + rest;
    var v := FlexibleLite.AddressOf(from.value.members);
    assert FieldIndex(fs, "from") == Some(0);
    PersonDecode(from);
    assert members[1..] == rest;
    assert DecodeFields(fs, ZeroFields(fs), members, None) == DecodeFields(fs, ZeroFields(fs)[0 := v], rest, None);
    FieldUntouched(fs, ZeroFields(fs)[0 := v], rest, None, 0);
    FieldsFit(fs, ZeroFields(fs)[0 := v], rest, None);
  }

  /** The anonymous From struct decodes an object of strings as the Address
      type does. */
  lemma PersonDecode(n: Node)
    requires n.value.Object? && FlexibleLite.StringMembers(n.value.members)
    ensures Decode(Person, Zero(Person), n) == Done(FlexibleLite.AddressOf(n.value.members), None)
  {
    hide DecodeItems, DecodeEntries, Fits, FieldIndex;
    var fs := FlexibleLite.AddressFields;
    StringStruct(fs, ZeroFields(fs), n.value.members, None);
    var r := DecodeFields(fs, ZeroFields(fs), n.value.members, None);
    assert r.value == GStruct([r.value.fields[0], r.value.fields[1]]);
  }

  /** An object with `"from": []` that the newer type of
      ciolite/lite_users_webhooks.go accepts is rejected by this one. */
  lemma FromSentinelDiffers(data: string, cur: GoValue, from: Node, rest: seq<Member>)
    requires Parse(data).Ok? && Parse(data).value.value == Object([Member("from", from)] + rest)
    requires from.raw == "[]" && from.value.Array?
    requires FlexibleLite.NoLaterFrom(rest)
    requires forall k :: 0 <= k < |rest| ==> FieldFits(FlexibleLite.WebhookAddressFields, rest[k])
    ensures FlexibleUnmarshal(FlexibleLite.WebhookAddresses.underlying, data, cur).1.None?
    ensures FlexibleUnmarshal(WebhookAddressStruct, data, cur).1.Some?
  {
    FlexibleLite.WebhookFromSentinel(data, cur, from, rest);
    FromArrayRejected(data, cur, from, rest);
  }
}

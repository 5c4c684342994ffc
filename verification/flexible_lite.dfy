/** The response types of ciolite whose empty state the service sends as `[]`
    and whose populated state is an object: ListHeaders, PersonInfo, Address,
    GetUsersEmailAccountFolderMessageAddresses
    (ciolite/lite_users_email_accounts_folders_messages.go) and
    WebhookMessageDataAddresses (ciolite/lite_users_webhooks.go). Each
    UnmarshalJSON method is GoJson.FlexibleUnmarshal on its underlying type. */
module FlexibleLite {
  import opened Base
  import opened Json
  import opened GoJson

  const AddressFields := [FieldSpec("email", TString), FieldSpec("name", TString)]
  const AddressStruct := TStruct(AddressFields)
  const Address := TFlexible(AddressStruct)

  /** map[string]string */
  const ListHeaders := TFlexible(TMap(TString))

  /** map[string]map[string]string */
  const PersonInfo := TFlexible(TMap(TMap(TString)))

  const MessageAddressFields := [
    FieldSpec("from", TSlice(Address)), FieldSpec("to", TSlice(Address)),
    FieldSpec("cc", TSlice(Address)), FieldSpec("bcc", TSlice(Address)),
    FieldSpec("sender", TSlice(Address)), FieldSpec("reply_to", TSlice(Address))]
  const MessageAddresses := TFlexible(TStruct(MessageAddressFields))

  /** Here `From` is a single Address, so it has the Address decoder too. */
  const WebhookAddressFields := [
    FieldSpec("from", Address), FieldSpec("to", TSlice(Address)),
    FieldSpec("cc", TSlice(Address)), FieldSpec("bcc", TSlice(Address)),
    FieldSpec("sender", TSlice(Address)), FieldSpec("reply_to", TSlice(Address)),
    FieldSpec("return_path", TSlice(Address))]
  const WebhookAddresses := TFlexible(TStruct(WebhookAddressFields))

  /** Members that are all JSON strings or null. */
  predicate StringMembers(members: seq<Member>)
  {
    forall k :: 0 <= k < |members| ==> StringOrNull(members[k].node.value)
  }

  /** The string map these members give: each key maps to its last value,
      null reading as "". */
  ghost predicate HeadersOf(entries: seq<(string, GoValue)>, members: seq<Member>)
  {
    forall key :: MapGet(entries, key) ==
      match LastNode(members, key)
      case Some(n) => Some(StringElem(n.value))
      case None => None
  }

  /** The Address these members give: each field holds the last string given
      under its key, matched exactly or ignoring case. */
  function AddressOf(members: seq<Member>): (r: GoValue)
    ensures Conforms(AddressStruct, r)
  {
    var zero := ZeroFields(AddressFields);
    GStruct([ExpectedField(AddressFields, zero, members, 0), ExpectedField(AddressFields, zero, members, 1)])
  }

  // ---------------------------------------------------------------------
  // ListHeaders and PersonInfo

  lemma StringMapDecode(members: seq<Member>)
    requires StringMembers(members)
    ensures var r := DecodeEntries(TString, [], members, None);
      Clean(r) && HeadersOf(r.value.entries, members)
  {
    StringElemDecode(members);
    EntriesReference(TString, [], members, None);
  }

  /** ListHeaders.UnmarshalJSON on an object of strings: the map holds each
      key's last value. */
  lemma ListHeadersObject(data: string, cur: GoValue, members: seq<Member>)
    requires Parse(data).Ok? && Parse(data).value.value == Object(members)
    requires StringMembers(members)
    ensures var r := FlexibleUnmarshal(ListHeaders.underlying, data, cur);
      r.1.None? && r.0.GMap? && HeadersOf(r.0.entries, members)
  {
    EmptyArrayText();
    StringMapDecode(members);
  }

  /** Each member of a PersonInfo object is itself an object of strings. */
  predicate PeopleMembers(members: seq<Member>)
  {
    forall k :: 0 <= k < |members| ==>
      members[k].node.value.Object? && StringMembers(members[k].node.value.members)
  }

  /** PersonInfo.UnmarshalJSON on an object of objects of strings: each key
      maps to the string map of its last object. */
  lemma PersonInfoObject(data: string, cur: GoValue, members: seq<Member>)
    requires Parse(data).Ok? && Parse(data).value.value == Object(members)
    requires PeopleMembers(members)
    ensures var r := FlexibleUnmarshal(PersonInfo.underlying, data, cur);
      && r.1.None? && r.0.GMap?
      && forall key ::
        match LastNode(members, key)
        case Some(n) => MapGet(r.0.entries, key).Some? && MapGet(r.0.entries, key).value.GMap?
          && HeadersOf(MapGet(r.0.entries, key).value.entries, n.value.members)
        case None => MapGet(r.0.entries, key).None?
  {
    EmptyArrayText();
    PeopleEntries(members);
    hide DecodeEntries, DecodeItems, DecodeFields, HeadersOf, LastNode, MapGet;
  }

  /** The map of string maps these members decode into. */
  lemma PeopleEntries(members: seq<Member>)
    requires PeopleMembers(members)
    ensures var r := DecodeEntries(TMap(TString), [], members, None);
      && Clean(r)
      && forall key ::
        match LastNode(members, key)
        case Some(n) => MapGet(r.value.entries, key).Some? && MapGet(r.value.entries, key).value.GMap?
          && HeadersOf(MapGet(r.value.entries, key).value.entries, n.value.members)
        case None => MapGet(r.value.entries, key).None?
  {
    hide DecodeEntries, DecodeItems, DecodeFields, Fits, Parse, FlexibleUnmarshal;
    var inner := TMap(TString);
    forall k | 0 <= k < |members|
      ensures Clean(Decode(inner, Zero(inner), members[k].node))
      ensures HeadersOf(Decode(inner, Zero(inner), members[k].node).value.entries, members[k].node.value.members)
    {
      PersonDecode(members[k].node);
    }
    EntriesReference(inner, [], members, None);
    var r := DecodeEntries(inner, [], members, None);
    hide Decode;
    forall key
      ensures match LastNode(members, key)
        case Some(n) => MapGet(r.value.entries, key).Some? && MapGet(r.value.entries, key).value.GMap?
          && HeadersOf(MapGet(r.value.entries, key).value.entries, n.value.members)
        case None => MapGet(r.value.entries, key).None?
    {
      match LastNode(members, key)
      case Some(n) =>
        var k :| 0 <= k < |members| && members[k].key == key && members[k].node == n;
      case None =>
    }
  }

  /** One person: an object of strings decodes into its string map. */
  lemma PersonDecode(n: Node)
    requires n.value.Object? && StringMembers(n.value.members)
    ensures var inner := TMap(TString);
      && Clean(Decode(inner, Zero(inner), n))
      && HeadersOf(Decode(inner, Zero(inner), n).value.entries, n.value.members)
  {
    StringMapDecode(n.value.members);
    hide DecodeEntries, DecodeItems, DecodeFields, Fits;
  }

  // ---------------------------------------------------------------------
  // Address and the address lists

  /** Decoding one Address in place: `[]` gives the empty Address, an object
      of strings the Address its members give, whatever was there before. */
  lemma AddressDecode(cur: GoValue, n: Node)
    requires n.raw == "[]" || (n.value.Object? && StringMembers(n.value.members))
    ensures Decode(Address, cur, n) == Done(if n.raw == "[]" then Zero(AddressStruct) else AddressOf(n.value.members), None)
  {
    hide DecodeItems, DecodeEntries, Fits, FieldIndex;
    if n.raw != "[]" {
      var zero := ZeroFields(AddressFields);
      StringStruct(AddressFields, zero, n.value.members, None);
    }
  }

  /** Address.UnmarshalJSON on an object of strings. */
  lemma AddressObject(data: string, cur: GoValue, members: seq<Member>)
    requires Parse(data).Ok? && Parse(data).value.value == Object(members)
    requires StringMembers(members)
    ensures FlexibleUnmarshal(AddressStruct, data, cur) == (AddressOf(members), None)
  {
    EmptyArrayText();
    hide DecodeItems, DecodeEntries, Fits, FieldIndex;
    StringStruct(AddressFields, ZeroFields(AddressFields), members, None);
    var r := DecodeFields(AddressFields, ZeroFields(AddressFields), members, None);
    assert r.value == GStruct([r.value.fields[0], r.value.fields[1]]);
  }

  /** An element of an address list: `[]` or an object of strings. */
  predicate AddressItem(n: Node)
  {
    n.raw == "[]" || (n.value.Object? && StringMembers(n.value.members))
  }

  function AddressItemValue(n: Node): GoValue
    requires AddressItem(n)
  {
    if n.raw == "[]" then Zero(AddressStruct) else AddressOf(n.value.members)
  }

  /** Every element of a []Address goes through the Address decoder, so each
      may be `[]` or an object, and the earlier elements of the slice do not
      matter. */
  lemma {:induction false} AddressList(prev: seq<GoValue>, items: seq<Node>, done: seq<GoValue>)
    requires forall k :: 0 <= k < |items| ==> AddressItem(items[k])
    ensures var r := DecodeItems(Address, prev, items, done, None);
      && r.Done? && r.saved.None? && r.value.elems[..|done|] == done
      && forall k :: 0 <= k < |items| ==> r.value.elems[|done| + k] == AddressItemValue(items[k])
    decreases |items|
  {
    hide Decode, DecodeEntries, DecodeFields, Fits, FieldIndex, AddressOf;
    if |items| > 0 {
      var start := if |done| < |prev| then prev[|done|] else Zero(Address);
      AddressDecode(start, items[0]);
      var v := AddressItemValue(items[0]);
      assert forall k :: 1 <= k < |items| ==> items[1..][k - 1] == items[k];
      AddressList(prev, items[1..], done + [v]);
      var r := DecodeItems(Address, prev, items[1..], done + [v], None);
      assert r.value.elems[..|done|] == (done + [v])[..|done|];
    }
  }

  // ---------------------------------------------------------------------
  // WebhookMessageDataAddresses

  /** No member after the first selects the `from` field. */
  predicate NoLaterFrom(rest: seq<Member>)
  {
    forall k :: 0 <= k < |rest| ==> FieldIndex(WebhookAddressFields, rest[k].key) != Some(0)
  }

  /** `"from": []` is accepted and leaves From empty, because From has the
      Address decoder; the rest of the object alone decides whether decoding
      succeeds. */
  lemma WebhookFromSentinel(data: string, cur: GoValue, from: Node, rest: seq<Member>)
    requires Parse(data).Ok? && Parse(data).value.value == Object([Member("from", from)] + rest)
    requires from.raw == "[]" && NoLaterFrom(rest)
    ensures var r := FlexibleUnmarshal(WebhookAddresses.underlying, data, cur);
      && (r.1.None? <==> forall k :: 0 <= k < |rest| ==> FieldFits(WebhookAddressFields, rest[k]))
      && (r.1.None? ==> r.0.fields[0] == Zero(AddressStruct))
  {
    FromStep(data, cur, from, rest);
  }

  /** `from` as an object of strings gives From the Address it describes. */
  lemma WebhookFromObject(data: string, cur: GoValue, from: Node, rest: seq<Member>)
    requires Parse(data).Ok? && Parse(data).value.value == Object([Member("from", from)] + rest)
    requires from.raw != "[]" && from.value.Object? && StringMembers(from.value.members) && NoLaterFrom(rest)
    ensures var r := FlexibleUnmarshal(WebhookAddresses.underlying, data, cur);
      && (r.1.None? <==> forall k :: 0 <= k < |rest| ==> FieldFits(WebhookAddressFields, rest[k]))
      && (r.1.None? ==> r.0.fields[0] == AddressOf(from.value.members))
  {
    FromStep(data, cur, from, rest);
  }

  /** The webhook struct after its `from` member is read first. */
  lemma FromStep(data: string, cur: GoValue, from: Node, rest: seq<Member>)
    requires Parse(data).Ok? && Parse(data).value.value == Object([Member("from", from)] + rest)
    requires AddressItem(from) && NoLaterFrom(rest)
    ensures var r := FlexibleUnmarshal(WebhookAddresses.underlying, data, cur);
      && (r.1.None? <==> forall k :: 0 <= k < |rest| ==> FieldFits(WebhookAddressFields, rest[k]))
      && (r.1.None? ==> r.0.fields[0] == AddressItemValue(from))
  {
    EmptyArrayText();
    hide DecodeItems, DecodeEntries, Fits;
    var fs := WebhookAddressFields;
    var t := TStruct(fs);
    var vals := ZeroFields(fs)[0 := AddressItemValue(from)];
    var n := Parse(data).value;
    assert Decode(t, Zero(t), n) == DecodeFields(fs, ZeroFields(fs), [Member("from", from)] + rest, None);
    FromFirst(from, rest);
    FieldUntouched(fs, vals, rest, None, 0);
    FieldsFit(fs, vals, rest, None);
  }

  lemma FromFirst(from: Node, rest: seq<Member>)
    requires AddressItem(from)
    ensures var fs := WebhookAddressFields;
      DecodeFields(fs, ZeroFields(fs), [Member("from", from)] + rest, None)
      == DecodeFields(fs, ZeroFields(fs)[0 := AddressItemValue(from)], rest, None)
  {
    var fs := WebhookAddressFields;
    var members := [Member("from", from)] + rest;
    assert FieldIndex(fs, "from") == Some(0);
    AddressDecode(ZeroFields(fs)[0], from);
    assert members[1..] == rest;
  }
}

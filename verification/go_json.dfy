/** encoding/json's Unmarshal for the Go types the response decoders use:
    strings, maps keyed by string, slices, structs of tagged fields, and the
    "flexible" named types whose UnmarshalJSON method reads the exact text
    `[]` as their empty value and anything else as their underlying type. */
module GoJson {
  import opened Base
  import opened Json

  datatype GoType =
    | TString
    /** Go's 64-bit int. */
    | TInt
    /** map[string]elem */
    | TMap(elem: GoType)
    /** []elem */
    | TSlice(elem: GoType)
    | TStruct(fields: seq<FieldSpec>)
    /** A named type whose UnmarshalJSON maps `[]` to the zero value and
        decodes anything else with json.Unmarshal into its underlying type. */
    | TFlexible(underlying: GoType)

  /** A struct field and the key its json tag gives it. */
  datatype FieldSpec = FieldSpec(key: string, typ: GoType)

  datatype GoValue =
    | GString(s: string)
    | GInt(i: int)
    /** A map, as its entries in insertion order; keys are distinct. A nil map
        and an empty one are the same here. */
    | GMap(entries: seq<(string, GoValue)>)
    | GSlice(elems: seq<GoValue>)
    /** A struct, one value per field in declaration order. */
    | GStruct(fields: seq<GoValue>)

  function TypeName(t: GoType): string
  {
    match t
    case TString => "string"
    case TInt => "int"
    case TMap(_) => "map"
    case TSlice(_) => "slice"
    case TStruct(_) => "struct"
    case TFlexible(u) => TypeName(u)
  }

  /** The zero value of a type. */
  function Zero(t: GoType): GoValue
    decreases t
  {
    match t
    case TString => GString("")
    case TInt => GInt(0)
    case TMap(_) => GMap([])
    case TSlice(_) => GSlice([])
    case TStruct(fs) => GStruct(ZeroFields(fs))
    case TFlexible(u) => Zero(u)
  }

  function ZeroFields(fs: seq<FieldSpec>): (r: seq<GoValue>)
    ensures |r| == |fs|
    decreases fs
  {
    if |fs| == 0 then [] else [Zero(fs[0].typ)] + ZeroFields(fs[1..])
  }

  /** A Go value of type `t`. */
  predicate Conforms(t: GoType, v: GoValue)
    decreases t
  {
    match t
    case TString => v.GString?
    case TInt => v.GInt? && MinInt64 <= v.i <= MaxInt64
    case TMap(e) => v.GMap? && DistinctKeys(v.entries) && forall k :: 0 <= k < |v.entries| ==> Conforms(e, v.entries[k].1)
    case TSlice(e) => v.GSlice? && forall k :: 0 <= k < |v.elems| ==> Conforms(e, v.elems[k])
    case TStruct(fs) => v.GStruct? && |v.fields| == |fs| && forall k :: 0 <= k < |fs| ==> Conforms(fs[k].typ, v.fields[k])
    case TFlexible(u) => Conforms(u, v)
  }

  predicate DistinctKeys(entries: seq<(string, GoValue)>)
  {
    forall a, b :: 0 <= a < b < |entries| ==> entries[a].0 != entries[b].0
  }

  // ---------------------------------------------------------------------
  // Maps

  function MapGet(entries: seq<(string, GoValue)>, key: string): (r: Option<GoValue>)
    ensures r.Some? <==> exists k :: 0 <= k < |entries| && entries[k].0 == key
    decreases |entries|
  {
    if |entries| == 0 then None
    else if entries[0].0 == key then Some(entries[0].1)
    else MapGet(entries[1..], key)
  }

  /** m[key] = v: replaces the entry in place or adds one at the end. */
  function MapPut(entries: seq<(string, GoValue)>, key: string, v: GoValue): (r: seq<(string, GoValue)>)
    ensures MapGet(r, key) == Some(v)
    ensures forall other :: other != key ==> MapGet(r, other) == MapGet(entries, other)
    ensures forall k :: 0 <= k < |r| ==> r[k].0 == key || MapGet(entries, r[k].0).Some?
    decreases |entries|
  {
    if |entries| == 0 then [(key, v)]
    else if entries[0].0 == key then [(key, v)] + entries[1..]
    else
      var rest := MapPut(entries[1..], key, v);
      assert forall k :: 1 <= k < |entries| ==> entries[1..][k - 1] == entries[k];
      [entries[0]] + rest
  }

  // ---------------------------------------------------------------------
  // Struct fields

  /** The field a key selects: an exact match of the tag name first, then a
      case-insensitive one, the first in declaration order either way. */
  function FieldIndex(fs: seq<FieldSpec>, key: string): (r: Option<nat>)
    ensures r.Some? ==> r.value < |fs| && EqualFold(fs[r.value].key, key)
    ensures r.None? <==> forall k :: 0 <= k < |fs| ==> !EqualFold(fs[k].key, key)
    ensures (exists k :: 0 <= k < |fs| && fs[k].key == key) ==> r.Some? && fs[r.value].key == key
  {
    match FirstWith(fs, key, true)
    case Some(k) => Some(k)
    case None => FirstWith(fs, key, false)
  }

  function FirstWith(fs: seq<FieldSpec>, key: string, exact: bool): (r: Option<nat>)
    ensures r.Some? ==> r.value < |fs| && (if exact then fs[r.value].key == key else EqualFold(fs[r.value].key, key))
    ensures r.None? ==> forall k :: 0 <= k < |fs| ==> !(if exact then fs[k].key == key else EqualFold(fs[k].key, key))
    ensures r.Some? ==> forall k :: 0 <= k < r.value ==> !(if exact then fs[k].key == key else EqualFold(fs[k].key, key))
    decreases |fs|
  {
    if |fs| == 0 then None
    else if (if exact then fs[0].key == key else EqualFold(fs[0].key, key)) then Some(0)
    else match FirstWith(fs[1..], key, exact)
      case None => None
      case Some(k) => Some(k + 1)
  }

  predicate DistinctTags(fs: seq<FieldSpec>)
  {
    forall a, b :: 0 <= a < b < |fs| ==> fs[a].key != fs[b].key
  }

  /** With distinct tags, a field's own tag selects it. */
  lemma TagSelects(fs: seq<FieldSpec>, k: nat)
    requires DistinctTags(fs) && k < |fs|
    ensures FieldIndex(fs, fs[k].key) == Some(k)
  {
    var r := FirstWith(fs, fs[k].key, true);
    assert r.Some?;
  }

  // ---------------------------------------------------------------------
  // Decoding

  /** The state after decoding one value: the value built and the first
      type error met (decoding goes on after one), or the error an
      UnmarshalJSON method returned, which stops decoding at once. */
  datatype Step =
    | Done(value: GoValue, saved: Option<JsonError>)
    | Abort(error: JsonError)

  /** The int a number literal gives: a literal with no fraction or
      exponent, in range. */
  function IntValue(lit: string): (r: Option<int>)
    ensures r.Some? ==> MinInt64 <= r.value <= MaxInt64 && IntLiteral(lit)
  {
    var v := SignedDecimalValue(lit);
    if IntLiteral(lit) && v.Some? && MinInt64 <= v.value <= MaxInt64 then v else None
  }

  /** What Itoa writes reads back as the same int. */
  lemma IntValueItoa(n: int)
    requires MinInt64 <= n <= MaxInt64
    ensures IntValue(Itoa(n)) == Some(n)
  {
    ItoaIntLiteral(n);
    ItoaRoundTrip(n);
  }

  function Mismatch(what: string, t: GoType): JsonError
  {
    UnmarshalType(what, TypeName(t))
  }

  function First(a: Option<JsonError>, b: Option<JsonError>): Option<JsonError>
  {
    if a.Some? then a else b
  }

  /** Decode the parsed value `n` into `cur`, a value of type `t`. A value of
      the wrong kind leaves `cur` as it was and records a type error. */
  function Decode(t: GoType, cur: GoValue, n: Node): (r: Step)
    decreases n, t
  {
    if t.TFlexible? then
      var u := t.underlying;
      if n.raw == "[]" then Done(Zero(u), None)
      else
        // UnmarshalJSON runs json.Unmarshal afresh on the value's text.
        match Decode(u, Zero(u), n)
        case Done(v, None) => Done(v, None)
        case Done(_, Some(e)) => Abort(e)
        case Abort(e) => Abort(e)
    else
      match n.value
      case Null => if t.TMap? || t.TSlice? then Done(Zero(t), None) else Done(cur, None)
      case Bool(_) => Done(cur, Some(Mismatch("bool", t)))
      case Number(lit) =>
        if !t.TInt? then Done(cur, Some(Mismatch("number", t)))
        else if IntValue(lit).Some? then Done(GInt(IntValue(lit).value), None)
        else Done(cur, Some(UnmarshalType("number " + lit, "int")))
      case String(s) => if t.TString? then Done(GString(s), None) else Done(cur, Some(Mismatch("string", t)))
      case Array(items) =>
        if t.TSlice? then DecodeItems(t.elem, if cur.GSlice? then cur.elems else [], items, [], None)
        else Done(cur, Some(Mismatch("array", t)))
      case Object(members) =>
        if t.TMap? then DecodeEntries(t.elem, if cur.GMap? then cur.entries else [], members, None)
        else if t.TStruct? then DecodeFields(t.fields, FieldsOf(t.fields, cur), members, None)
        else Done(cur, Some(Mismatch("object", t)))
  }

  /** The field values of a struct value of these fields. */
  function FieldsOf(fs: seq<FieldSpec>, cur: GoValue): (r: seq<GoValue>)
    ensures |r| == |fs|
  {
    if cur.GStruct? && |cur.fields| == |fs| then cur.fields else ZeroFields(fs)
  }

  /** Array elements into a slice: element `k` is decoded into the previous
      element `k` when there is one, else into a zero value; the slice ends
      up as long as the array. */
  function DecodeItems(e: GoType, prev: seq<GoValue>, items: seq<Node>, done: seq<GoValue>, saved: Option<JsonError>): (r: Step)
    ensures r.Done? ==> r.value.GSlice? && |r.value.elems| == |done| + |items|
    ensures r.Done? && saved.Some? ==> r.saved == saved
    decreases items, e
  {
    if |items| == 0 then Done(GSlice(done), saved)
    else
      var k := |done|;
      match Decode(e, if k < |prev| then prev[k] else Zero(e), items[0])
      case Abort(err) => Abort(err)
      case Done(v, s) => DecodeItems(e, prev, items[1..], done + [v], First(saved, s))
  }

  /** Object members into a map: each value is decoded into a fresh zero
      element and stored under its key, replacing an earlier one. */
  function DecodeEntries(e: GoType, entries: seq<(string, GoValue)>, members: seq<Member>, saved: Option<JsonError>): (r: Step)
    ensures r.Done? ==> r.value.GMap?
    ensures r.Done? && saved.Some? ==> r.saved == saved
    decreases members, e
  {
    if |members| == 0 then Done(GMap(entries), saved)
    else
      match Decode(e, Zero(e), members[0].node)
      case Abort(err) => Abort(err)
      case Done(v, s) => DecodeEntries(e, MapPut(entries, members[0].key, v), members[1..], First(saved, s))
  }

  /** Object members into a struct: a member whose key selects no field is
      skipped; otherwise its value is decoded into that field. */
  function DecodeFields(fs: seq<FieldSpec>, vals: seq<GoValue>, members: seq<Member>, saved: Option<JsonError>): (r: Step)
    requires |vals| == |fs|
    ensures r.Done? ==> r.value.GStruct? && |r.value.fields| == |fs|
    ensures r.Done? && saved.Some? ==> r.saved == saved
    decreases members
  {
    if |members| == 0 then Done(GStruct(vals), saved)
    else
      match FieldIndex(fs, members[0].key)
      case None => DecodeFields(fs, vals, members[1..], saved)
      case Some(f) =>
        match Decode(fs[f].typ, vals[f], members[0].node)
        case Abort(err) => Abort(err)
        case Done(v, s) => DecodeFields(fs, vals[f := v], members[1..], First(saved, s))
  }

  /** json.Unmarshal(data, &v) into a fresh variable of type `t`: a syntax
      error before anything is decoded, else the first type error, else the
      value. */
  function Unmarshal(t: GoType, data: string): Result<GoValue, JsonError>
  {
    match Parse(data)
    case Err(e) => Err(e)
    case Ok(n) =>
      match Decode(t, Zero(t), n)
      case Done(v, None) => Ok(v)
      case Done(_, Some(e)) => Err(e)
      case Abort(e) => Err(e)
  }

  /** The UnmarshalJSON method of a flexible type, called with the exact text
      of the value: `[]` gives the zero value; otherwise the receiver is
      assigned only when json.Unmarshal succeeds, and keeps `cur` when it
      fails. */
  function FlexibleUnmarshal(u: GoType, data: string, cur: GoValue): (r: (GoValue, Option<JsonError>))
  {
    if data == "[]" then (Zero(u), None)
    else match Unmarshal(u, data)
      case Ok(v) => (v, None)
      case Err(e) => (cur, Some(e))
  }

  // ---------------------------------------------------------------------
  // Properties

  lemma {:induction false} ZeroConforms(t: GoType)
    ensures Conforms(t, Zero(t))
    decreases t, 1
  {
    match t
    case TStruct(fs) => ZeroFieldsConform(fs);
    case TFlexible(u) => ZeroConforms(u);
    case _ =>
  }

  lemma {:induction false} ZeroFieldsConform(fs: seq<FieldSpec>)
    ensures forall k :: 0 <= k < |fs| ==> Conforms(fs[k].typ, ZeroFields(fs)[k])
    decreases fs, 0
  {
    if |fs| > 0 {
      ZeroConforms(fs[0].typ);
      ZeroFieldsConform(fs[1..]);
      forall k | 1 <= k < |fs| ensures Conforms(fs[k].typ, ZeroFields(fs)[k]) {
        assert fs[1..][k - 1] == fs[k];
        assert ZeroFields(fs)[k] == ZeroFields(fs[1..])[k - 1];
      }
    }
  }

  /** Decoding into a value of type `t` gives a value of type `t`. */
  lemma {:induction false} DecodeConforms(t: GoType, cur: GoValue, n: Node)
    requires Conforms(t, cur)
    ensures Decode(t, cur, n).Done? ==> Conforms(t, Decode(t, cur, n).value)
    decreases n, t
  {
    if t.TFlexible? {
      ZeroConforms(t.underlying);
      if n.raw != "[]" {
        DecodeConforms(t.underlying, Zero(t.underlying), n);
      }
    } else {
      match n.value
      case Array(items) =>
        if t.TSlice? {
          ItemsConform(t.elem, cur.elems, items, [], None);
        }
      case Object(members) =>
        if t.TMap? {
          EntriesConform(t.elem, cur.entries, members, None);
        } else if t.TStruct? {
          FieldsConform(t.fields, cur.fields, members, None);
        }
      case _ =>
        ZeroConforms(t);
    }
  }

  lemma {:induction false} ItemsConform(e: GoType, prev: seq<GoValue>, items: seq<Node>, done: seq<GoValue>, saved: Option<JsonError>)
    requires forall k :: 0 <= k < |prev| ==> Conforms(e, prev[k])
    requires forall k :: 0 <= k < |done| ==> Conforms(e, done[k])
    ensures var r := DecodeItems(e, prev, items, done, saved); r.Done? ==> Conforms(TSlice(e), r.value)
    decreases items, e
  {
    if |items| > 0 {
      var k := |done|;
      var start := if k < |prev| then prev[k] else Zero(e);
      ZeroConforms(e);
      DecodeConforms(e, start, items[0]);
      match Decode(e, start, items[0])
      case Abort(_) =>
      case Done(v, s) =>
        ItemsConform(e, prev, items[1..], done + [v], First(saved, s));
    }
  }

  lemma {:induction false} EntriesConform(e: GoType, entries: seq<(string, GoValue)>, members: seq<Member>, saved: Option<JsonError>)
    requires DistinctKeys(entries) && forall k :: 0 <= k < |entries| ==> Conforms(e, entries[k].1)
    ensures var r := DecodeEntries(e, entries, members, saved); r.Done? ==> Conforms(TMap(e), r.value)
    decreases members, e
  {
    if |members| > 0 {
      ZeroConforms(e);
      DecodeConforms(e, Zero(e), members[0].node);
      match Decode(e, Zero(e), members[0].node)
      case Abort(_) =>
      case Done(v, s) =>
        var next := MapPut(entries, members[0].key, v);
        PutConforms(e, entries, members[0].key, v);
        PutDistinct(entries, members[0].key, v);
        EntriesConform(e, next, members[1..], First(saved, s));
    }
  }

  /** Storing under a key keeps the keys of a map distinct. */
  lemma {:induction false} PutDistinct(entries: seq<(string, GoValue)>, key: string, v: GoValue)
    requires DistinctKeys(entries)
    ensures DistinctKeys(MapPut(entries, key, v))
    decreases |entries|
  {
    var r := MapPut(entries, key, v);
    if |entries| > 0 && entries[0].0 != key {
      var tail := entries[1..];
      forall a, b | 0 <= a < b < |tail| ensures tail[a].0 != tail[b].0 {
        assert tail[a] == entries[a + 1] && tail[b] == entries[b + 1];
      }
      PutDistinct(tail, key, v);
      var rest := MapPut(tail, key, v);
      forall k | 0 <= k < |rest| ensures rest[k].0 != entries[0].0 {
        if rest[k].0 != key {
          var j :| 0 <= j < |tail| && tail[j].0 == rest[k].0;
          assert entries[j + 1].0 == rest[k].0;
        }
      }
      assert r == [entries[0]] + rest;
      forall a, b | 0 <= a < b < |r| ensures r[a].0 != r[b].0 {
        assert r[b] == rest[b - 1];
        if a > 0 { assert r[a] == rest[a - 1]; }
      }
    } else if |entries| > 0 {
      assert r == [(key, v)] + entries[1..];
      forall a, b | 0 <= a < b < |r| ensures r[a].0 != r[b].0 {
        assert r[a].0 == entries[a].0 && r[b].0 == entries[b].0;
      }
    }
  }

  lemma {:induction false} PutConforms(e: GoType, entries: seq<(string, GoValue)>, key: string, v: GoValue)
    requires forall k :: 0 <= k < |entries| ==> Conforms(e, entries[k].1)
    requires Conforms(e, v)
    ensures forall k :: 0 <= k < |MapPut(entries, key, v)| ==> Conforms(e, MapPut(entries, key, v)[k].1)
    decreases |entries|
  {
    if |entries| > 0 && entries[0].0 != key {
      PutConforms(e, entries[1..], key, v);
      var r := MapPut(entries, key, v);
      forall k | 0 <= k < |r| ensures Conforms(e, r[k].1) {
        if k > 0 { assert r[k] == MapPut(entries[1..], key, v)[k - 1]; }
      }
    }
  }

  lemma {:induction false} FieldsConform(fs: seq<FieldSpec>, vals: seq<GoValue>, members: seq<Member>, saved: Option<JsonError>)
    requires |vals| == |fs| && forall k :: 0 <= k < |fs| ==> Conforms(fs[k].typ, vals[k])
    ensures var r := DecodeFields(fs, vals, members, saved); r.Done? ==> Conforms(TStruct(fs), r.value)
    decreases members
  {
    if |members| > 0 {
      match FieldIndex(fs, members[0].key)
      case None => FieldsConform(fs, vals, members[1..], saved);
      case Some(f) =>
        DecodeConforms(fs[f].typ, vals[f], members[0].node);
        match Decode(fs[f].typ, vals[f], members[0].node)
        case Abort(_) =>
        case Done(v, s) => FieldsConform(fs, vals[f := v], members[1..], First(saved, s));
    }
  }

  /** Decoding only ever reports type errors; syntax errors are found before. */
  predicate TypeErrorsOnly(r: Step)
  {
    match r
    case Done(_, saved) => saved.None? || saved.value.UnmarshalType?
    case Abort(e) => e.UnmarshalType?
  }

  lemma {:induction false} DecodeTypeErrors(t: GoType, cur: GoValue, n: Node)
    ensures TypeErrorsOnly(Decode(t, cur, n))
    decreases n, t
  {
    if t.TFlexible? {
      if n.raw != "[]" {
        DecodeTypeErrors(t.underlying, Zero(t.underlying), n);
      }
    } else {
      match n.value
      case Array(items) =>
        if t.TSlice? {
          ItemsTypeErrors(t.elem, if cur.GSlice? then cur.elems else [], items, [], None);
        }
      case Object(members) =>
        if t.TMap? {
          EntriesTypeErrors(t.elem, if cur.GMap? then cur.entries else [], members, None);
        } else if t.TStruct? {
          FieldsTypeErrors(t.fields, FieldsOf(t.fields, cur), members, None);
        }
      case _ =>
    }
  }

  lemma {:induction false} ItemsTypeErrors(e: GoType, prev: seq<GoValue>, items: seq<Node>, done: seq<GoValue>, saved: Option<JsonError>)
    requires saved.None? || saved.value.UnmarshalType?
    ensures TypeErrorsOnly(DecodeItems(e, prev, items, done, saved))
    decreases items, e
  {
    if |items| > 0 {
      var k := |done|;
      var start := if k < |prev| then prev[k] else Zero(e);
      DecodeTypeErrors(e, start, items[0]);
      match Decode(e, start, items[0])
      case Abort(_) =>
      case Done(v, s) => ItemsTypeErrors(e, prev, items[1..], done + [v], First(saved, s));
    }
  }

  lemma {:induction false} EntriesTypeErrors(e: GoType, entries: seq<(string, GoValue)>, members: seq<Member>, saved: Option<JsonError>)
    requires saved.None? || saved.value.UnmarshalType?
    ensures TypeErrorsOnly(DecodeEntries(e, entries, members, saved))
    decreases members, e
  {
    if |members| > 0 {
      DecodeTypeErrors(e, Zero(e), members[0].node);
      match Decode(e, Zero(e), members[0].node)
      case Abort(_) =>
      case Done(v, s) => EntriesTypeErrors(e, MapPut(entries, members[0].key, v), members[1..], First(saved, s));
    }
  }

  lemma {:induction false} FieldsTypeErrors(fs: seq<FieldSpec>, vals: seq<GoValue>, members: seq<Member>, saved: Option<JsonError>)
    requires |vals| == |fs|
    requires saved.None? || saved.value.UnmarshalType?
    ensures TypeErrorsOnly(DecodeFields(fs, vals, members, saved))
    decreases members
  {
    if |members| > 0 {
      match FieldIndex(fs, members[0].key)
      case None => FieldsTypeErrors(fs, vals, members[1..], saved);
      case Some(f) =>
        DecodeTypeErrors(fs[f].typ, vals[f], members[0].node);
        match Decode(fs[f].typ, vals[f], members[0].node)
        case Abort(_) =>
        case Done(v, s) => FieldsTypeErrors(fs, vals[f := v], members[1..], First(saved, s));
    }
  }

  /** json.Unmarshal reports a syntax error exactly when the text is not
      JSON, and otherwise succeeds or reports a type error. */
  lemma UnmarshalErrors(t: GoType, data: string)
    ensures Unmarshal(t, data) == Err(Syntax) <==> Parse(data).Err?
    ensures Unmarshal(t, data).Err? && Parse(data).Ok? ==> Unmarshal(t, data).error.UnmarshalType?
    ensures Unmarshal(t, data).Ok? ==> Conforms(t, Unmarshal(t, data).value)
  {
    match Parse(data)
    case Err(_) =>
    case Ok(n) =>
      DecodeTypeErrors(t, Zero(t), n);
      ZeroConforms(t);
      DecodeConforms(t, Zero(t), n);
  }

  // ---------------------------------------------------------------------
  // Which JSON fits which type

  /** The JSON value has the shape of the type: every value is of the kind
      its place needs or null, object keys that select no struct field are
      free, and a flexible type also takes the exact text `[]`. */
  predicate Fits(t: GoType, n: Node)
    decreases n, t
  {
    if t.TFlexible? then n.raw == "[]" || Fits(t.underlying, n)
    else
      match n.value
      case Null => true
      case Bool(_) => false
      case Number(lit) => t.TInt? && IntValue(lit).Some?
      case String(_) => t.TString?
      case Array(items) => t.TSlice? && forall k :: 0 <= k < |items| ==> Fits(t.elem, items[k])
      case Object(members) =>
        (t.TMap? && forall k :: 0 <= k < |members| ==> Fits(t.elem, members[k].node))
        || (t.TStruct? && forall k :: 0 <= k < |members| ==> FieldFits(t.fields, members[k]))
  }

  /** A member skipped by a struct, or one whose value fits its field. */
  predicate FieldFits(fs: seq<FieldSpec>, m: Member)
    decreases m, 0
  {
    match FieldIndex(fs, m.key)
    case None => true
    case Some(f) => Fits(fs[f].typ, m.node)
  }

  predicate Clean(r: Step) { r.Done? && r.saved.None? }

  /** Decoding succeeds, wherever it starts from, exactly when the value
      fits the type. */
  lemma {:induction false} DecodeFits(t: GoType, cur: GoValue, n: Node)
    ensures Clean(Decode(t, cur, n)) <==> Fits(t, n)
    decreases n, t
  {
    if t.TFlexible? {
      if n.raw != "[]" {
        DecodeFits(t.underlying, Zero(t.underlying), n);
      }
    } else {
      match n.value
      case Array(items) =>
        if t.TSlice? {
          ItemsFit(t.elem, if cur.GSlice? then cur.elems else [], items, [], None);
        }
      case Object(members) =>
        if t.TMap? {
          EntriesFit(t.elem, if cur.GMap? then cur.entries else [], members, None);
        } else if t.TStruct? {
          FieldsFit(t.fields, FieldsOf(t.fields, cur), members, None);
        }
      case _ =>
    }
  }

  lemma {:induction false} ItemsFit(e: GoType, prev: seq<GoValue>, items: seq<Node>, done: seq<GoValue>, saved: Option<JsonError>)
    ensures Clean(DecodeItems(e, prev, items, done, saved)) <==> saved.None? && forall k :: 0 <= k < |items| ==> Fits(e, items[k])
    decreases items, e
  {
    if |items| > 0 {
      var k := |done|;
      var start := if k < |prev| then prev[k] else Zero(e);
      DecodeFits(e, start, items[0]);
      assert forall j :: 1 <= j < |items| ==> items[1..][j - 1] == items[j];
      match Decode(e, start, items[0])
      case Abort(_) =>
      case Done(v, s) => ItemsFit(e, prev, items[1..], done + [v], First(saved, s));
    }
  }

  lemma {:induction false} EntriesFit(e: GoType, entries: seq<(string, GoValue)>, members: seq<Member>, saved: Option<JsonError>)
    ensures Clean(DecodeEntries(e, entries, members, saved)) <==> saved.None? && forall k :: 0 <= k < |members| ==> Fits(e, members[k].node)
    decreases members, e
  {
    if |members| > 0 {
      DecodeFits(e, Zero(e), members[0].node);
      assert forall j :: 1 <= j < |members| ==> members[1..][j - 1] == members[j];
      match Decode(e, Zero(e), members[0].node)
      case Abort(_) =>
      case Done(v, s) => EntriesFit(e, MapPut(entries, members[0].key, v), members[1..], First(saved, s));
    }
  }

  lemma {:induction false} FieldsFit(fs: seq<FieldSpec>, vals: seq<GoValue>, members: seq<Member>, saved: Option<JsonError>)
    requires |vals| == |fs|
    ensures Clean(DecodeFields(fs, vals, members, saved)) <==> saved.None? && forall k :: 0 <= k < |members| ==> FieldFits(fs, members[k])
    decreases members
  {
    hide Decode, DecodeItems, DecodeEntries, Fits;
    if |members| > 0 {
      assert forall j :: 1 <= j < |members| ==> members[1..][j - 1] == members[j];
      match FieldIndex(fs, members[0].key)
      case None => FieldsFit(fs, vals, members[1..], saved);
      case Some(f) =>
        DecodeFits(fs[f].typ, vals[f], members[0].node);
        match Decode(fs[f].typ, vals[f], members[0].node)
        case Abort(_) =>
        case Done(v, s) => FieldsFit(fs, vals[f := v], members[1..], First(saved, s));
    }
  }

  /** json.Unmarshal succeeds exactly when the text is JSON whose value fits
      the type. */
  lemma UnmarshalFits(t: GoType, data: string)
    ensures Unmarshal(t, data).Ok? <==> Parse(data).Ok? && Fits(t, Parse(data).value)
  {
    if Parse(data).Ok? {
      DecodeFits(t, Zero(t), Parse(data).value);
    }
  }

  /** A struct field no member selects keeps its value. */
  lemma {:induction false} FieldUntouched(fs: seq<FieldSpec>, vals: seq<GoValue>, members: seq<Member>, saved: Option<JsonError>, f: nat)
    requires |vals| == |fs| && f < |fs|
    requires forall k :: 0 <= k < |members| ==> FieldIndex(fs, members[k].key) != Some(f)
    ensures DecodeFields(fs, vals, members, saved).Done? ==> DecodeFields(fs, vals, members, saved).value.fields[f] == vals[f]
    decreases members
  {
    if |members| > 0 {
      assert forall j :: 1 <= j < |members| ==> members[1..][j - 1] == members[j];
      match FieldIndex(fs, members[0].key)
      case None => FieldUntouched(fs, vals, members[1..], saved, f);
      case Some(g) =>
        match Decode(fs[g].typ, vals[g], members[0].node)
        case Abort(_) =>
        case Done(v, s) => FieldUntouched(fs, vals[g := v], members[1..], First(saved, s), f);
    }
  }

  /** Members that name the struct's fields one by one, in declaration
      order, each with a value that fits: every field gets the value decoded
      from its member. */
  lemma {:induction false} FieldsInOrder(fs: seq<FieldSpec>, vals: seq<GoValue>, members: seq<Member>, i: nat, saved: Option<JsonError>)
    requires |vals| == |fs| == |members| && i <= |fs|
    requires forall k :: i <= k < |fs| ==> FieldIndex(fs, members[k].key) == Some(k)
    requires forall k :: i <= k < |fs| ==> Decode(fs[k].typ, vals[k], members[k].node).Done? && Decode(fs[k].typ, vals[k], members[k].node).saved.None?
    ensures var r := DecodeFields(fs, vals, members[i..], saved);
      && r.Done? && r.saved == saved
      && (forall k :: 0 <= k < i ==> r.value.fields[k] == vals[k])
      && (forall k :: i <= k < |fs| ==> r.value.fields[k] == Decode(fs[k].typ, vals[k], members[k].node).value)
    decreases |fs| - i
  {
    hide Decode, FieldIndex;
    if i < |fs| {
      var v := Decode(fs[i].typ, vals[i], members[i].node).value;
      assert members[i..][0] == members[i] && members[i..][1..] == members[i + 1..];
      FieldsInOrder(fs, vals[i := v], members, i + 1, saved);
    }
  }

  /** Null leaves every type at its zero value: maps and slices are reset,
      strings and structs are left alone, and a flexible type decodes it
      afresh. */
  lemma {:induction false} NullIsZero(t: GoType, n: Node)
    requires n.value.Null? && n.raw != "[]"
    ensures Decode(t, Zero(t), n) == Done(Zero(t), None)
    decreases t
  {
    if t.TFlexible? {
      NullIsZero(t.underlying, n);
    }
  }

  /** Decoding a flexible type in place does what its UnmarshalJSON method
      does with the value's text, when that text reads back as the value. */
  lemma FlexibleInPlace(u: GoType, cur: GoValue, n: Node)
    requires Parse(n.raw) == Ok(n)
    ensures var (v, err) := FlexibleUnmarshal(u, n.raw, cur);
      Decode(TFlexible(u), cur, n) == if err.None? then Done(v, None) else Abort(err.value)
  {
  }

  // ---------------------------------------------------------------------
  // Flexible types

  /** The text `[]` reads as an empty array. */
  lemma EmptyArrayText()
    ensures Parse("[]") == Ok(Node("[]", Array([])))
  {
    assert Serialize(Array([])) == "[]";
    SerializeParse(Array([]));
  }

  /** What a flexible type's UnmarshalJSON promises: `[]` gives the zero
      value; any other text succeeds exactly when it is JSON that fits the
      underlying type, and the receiver is left as it was on failure. */
  lemma FlexibleOutcome(u: GoType, data: string, cur: GoValue)
    ensures var r := FlexibleUnmarshal(u, data, cur);
      && (data == "[]" ==> r == (Zero(u), None))
      && (data != "[]" ==> (r.1.None? <==> Parse(data).Ok? && Fits(u, Parse(data).value)))
      && (r.1.Some? ==> r.0 == cur)
      && (r.1.None? ==> Conforms(u, r.0))
  {
    ZeroConforms(u);
    UnmarshalFits(u, data);
    UnmarshalErrors(u, data);
  }

  /** Only the byte-exact `[]` is the empty sentinel: any other array text,
      `[ ]` or `[1]` say, is a type error for a map or struct type, and the
      receiver keeps its value. */
  lemma ArrayRejected(u: GoType, data: string, cur: GoValue)
    requires u.TMap? || u.TStruct?
    requires data != "[]" && Parse(data).Ok? && Parse(data).value.value.Array?
    ensures FlexibleUnmarshal(u, data, cur) == (cur, Some(UnmarshalType("array", TypeName(u))))
  {
  }

  /** A type with no flexible part: no UnmarshalJSON method is ever called. */
  predicate Plain(t: GoType)
    decreases t
  {
    match t
    case TString => true
    case TInt => true
    case TMap(e) => Plain(e)
    case TSlice(e) => Plain(e)
    case TStruct(fs) => forall k :: 0 <= k < |fs| ==> Plain(fs[k].typ)
    case TFlexible(_) => false
  }

  /** Decoding into a plain type never stops early: every member is read and
      the first type error is the one reported. */
  lemma {:induction false} PlainNeverAborts(t: GoType, cur: GoValue, n: Node)
    requires Plain(t)
    ensures Decode(t, cur, n).Done?
    decreases n, t
  {
    hide DecodeItems, DecodeEntries, DecodeFields, MapPut, Fits;
    match n.value
    case Array(items) =>
      if t.TSlice? {
        ItemsNeverAbort(t.elem, if cur.GSlice? then cur.elems else [], items, [], None);
      }
    case Object(members) =>
      if t.TMap? {
        EntriesNeverAbort(t.elem, if cur.GMap? then cur.entries else [], members, None);
      } else if t.TStruct? {
        FieldsNeverAbort(t.fields, FieldsOf(t.fields, cur), members, None);
      }
    case _ =>
  }

  lemma {:induction false} ItemsNeverAbort(e: GoType, prev: seq<GoValue>, items: seq<Node>, done: seq<GoValue>, saved: Option<JsonError>)
    requires Plain(e)
    ensures DecodeItems(e, prev, items, done, saved).Done?
    decreases items, e
  {
    if |items| > 0 {
      var start := if |done| < |prev| then prev[|done|] else Zero(e);
      PlainNeverAborts(e, start, items[0]);
      var v := Decode(e, start, items[0]);
      ItemsNeverAbort(e, prev, items[1..], done + [v.value], First(saved, v.saved));
    }
  }

  lemma {:induction false} EntriesNeverAbort(e: GoType, entries: seq<(string, GoValue)>, members: seq<Member>, saved: Option<JsonError>)
    requires Plain(e)
    ensures DecodeEntries(e, entries, members, saved).Done?
    decreases members, e
  {
    if |members| > 0 {
      PlainNeverAborts(e, Zero(e), members[0].node);
      var v := Decode(e, Zero(e), members[0].node);
      EntriesNeverAbort(e, MapPut(entries, members[0].key, v.value), members[1..], First(saved, v.saved));
    }
  }

  lemma {:induction false} FieldsNeverAbort(fs: seq<FieldSpec>, vals: seq<GoValue>, members: seq<Member>, saved: Option<JsonError>)
    requires |vals| == |fs|
    requires forall k :: 0 <= k < |fs| ==> Plain(fs[k].typ)
    ensures DecodeFields(fs, vals, members, saved).Done?
    decreases members
  {
    if |members| > 0 {
      match FieldIndex(fs, members[0].key)
      case None => FieldsNeverAbort(fs, vals, members[1..], saved);
      case Some(f) =>
        PlainNeverAborts(fs[f].typ, vals[f], members[0].node);
        var v := Decode(fs[f].typ, vals[f], members[0].node);
        FieldsNeverAbort(fs, vals[f := v.value], members[1..], First(saved, v.saved));
    }
  }

  // ---------------------------------------------------------------------
  // Reference results for objects of strings

  predicate StringOrNull(v: Value) { v.String? || v.Null? }

  /** The value of the last member with this key. */
  function LastNode(members: seq<Member>, key: string): (r: Option<Node>)
    ensures r.Some? ==> exists k :: 0 <= k < |members| && members[k].key == key && members[k].node == r.value
    ensures r.None? <==> forall k :: 0 <= k < |members| ==> members[k].key != key
    decreases |members|
  {
    if |members| == 0 then None
    else match LastNode(members[1..], key)
      case Some(n) => Some(n)
      case None => if members[0].key == key then Some(members[0].node) else None
  }

  /** Every member decodes into a fresh element without error. */
  predicate CleanElems(e: GoType, members: seq<Member>)
  {
    forall k :: 0 <= k < |members| ==> Decode(e, Zero(e), members[k].node).Done? && Decode(e, Zero(e), members[k].node).saved.None?
  }

  /** The element a key should have after the members are stored. */
  function ExpectedEntry(e: GoType, entries: seq<(string, GoValue)>, members: seq<Member>, key: string): Option<GoValue>
  {
    match LastNode(members, key)
    case Some(n) => if Decode(e, Zero(e), n).Done? then Some(Decode(e, Zero(e), n).value) else None
    case None => MapGet(entries, key)
  }

  /** A map decoded from members that each decode cleanly holds, for each
      key, the element decoded from the last member with that key, and the
      entries it had for keys no member gives. */
  lemma {:induction false} EntriesReference(e: GoType, entries: seq<(string, GoValue)>, members: seq<Member>, saved: Option<JsonError>)
    requires CleanElems(e, members)
    ensures var r := DecodeEntries(e, entries, members, saved);
      && r.Done? && r.saved == saved
      && forall key :: MapGet(r.value.entries, key) == ExpectedEntry(e, entries, members, key)
    decreases |members|
  {
    hide Decode, DecodeItems, DecodeFields;
    if |members| > 0 {
      var m := members[0];
      var v := Decode(e, Zero(e), m.node).value;
      var next := MapPut(entries, m.key, v);
      assert forall k :: 0 <= k < |members[1..]| ==> members[1..][k] == members[k + 1];
      assert DecodeEntries(e, entries, members, saved) == DecodeEntries(e, next, members[1..], First(saved, None));
      EntriesReference(e, next, members[1..], saved);
      forall key
        ensures ExpectedEntry(e, next, members[1..], key) == ExpectedEntry(e, entries, members, key)
      {
        ExpectedEntryStep(e, entries, members, key);
      }
      hide ExpectedEntry, DecodeEntries, MapPut;
    }
  }

  /** Storing the first member and reading the rest expects what reading
      all the members expects. */
  lemma ExpectedEntryStep(e: GoType, entries: seq<(string, GoValue)>, members: seq<Member>, key: string)
    requires |members| > 0 && CleanElems(e, members)
    ensures var v := Decode(e, Zero(e), members[0].node).value;
      ExpectedEntry(e, MapPut(entries, members[0].key, v), members[1..], key) == ExpectedEntry(e, entries, members, key)
  {
    hide Decode, DecodeItems, DecodeFields, DecodeEntries;
    assert Decode(e, Zero(e), members[0].node).Done?;
  }

  /** A JSON string or null as a fresh string element: null leaves it empty. */
  function StringElem(v: Value): GoValue
  {
    if v.String? then GString(v.s) else GString("")
  }

  lemma StringElemDecode(members: seq<Member>)
    requires forall k :: 0 <= k < |members| ==> StringOrNull(members[k].node.value)
    ensures CleanElems(TString, members)
    ensures forall k :: 0 <= k < |members| ==> Decode(TString, Zero(TString), members[k].node).value == StringElem(members[k].node.value)
  {
  }

  /** The last non-null string a member gives the field at `f`. */
  function LastStringFor(fs: seq<FieldSpec>, members: seq<Member>, f: nat): (r: Option<string>)
    decreases |members|
  {
    if |members| == 0 then None
    else match LastStringFor(fs, members[1..], f)
      case Some(s) => Some(s)
      case None =>
        var v := members[0].node.value;
        if FieldIndex(fs, members[0].key) == Some(f) && v.String? then Some(v.s) else None
  }

  /** The value a string field should have after the members are read. */
  function ExpectedField(fs: seq<FieldSpec>, vals: seq<GoValue>, members: seq<Member>, f: nat): GoValue
    requires f < |vals|
  {
    match LastStringFor(fs, members, f)
    case Some(s) => GString(s)
    case None => vals[f]
  }

  predicate StringFields(fs: seq<FieldSpec>) { forall k :: 0 <= k < |fs| ==> fs[k].typ == TString }

  /** A struct of string fields decoded from members that are all strings or
      null: each field holds the last string given for it, null changes
      nothing, and keys that select no field are ignored. */
  lemma {:induction false} StringStruct(fs: seq<FieldSpec>, vals: seq<GoValue>, members: seq<Member>, saved: Option<JsonError>)
    requires |vals| == |fs| && StringFields(fs)
    requires forall k :: 0 <= k < |members| ==> StringOrNull(members[k].node.value)
    ensures var r := DecodeFields(fs, vals, members, saved);
      && r.Done? && r.saved == saved
      && forall f :: 0 <= f < |fs| ==> r.value.fields[f] == ExpectedField(fs, vals, members, f)
    decreases |members|
  {
    hide FieldIndex, DecodeItems, DecodeEntries, Fits;
    if |members| > 0 {
      var m := members[0];
      assert forall k :: 0 <= k < |members[1..]| ==> members[1..][k] == members[k + 1];
      match FieldIndex(fs, m.key)
      case None =>
        StringStruct(fs, vals, members[1..], saved);
      case Some(f) =>
        var v := if m.node.value.String? then GString(m.node.value.s) else vals[f];
        assert Decode(TString, vals[f], m.node) == Done(v, None);
        StringStruct(fs, vals[f := v], members[1..], saved);
    }
  }
}

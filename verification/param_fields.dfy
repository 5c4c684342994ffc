/** The reflective view of a parameter struct that the codecs walk: each
    exported field with its Go name, its `json:"…"` tag and its value, whose
    variant is the field's reflect.Kind. */
module ParamFields {
  import opened Base
  import opened UrlValues

  datatype FieldValue =
    | StringValue(s: string)
    | BoolValue(b: bool)
    | IntValue(i: Int64)
    /** Any other kind (int64, float64, slice, struct, …), named as
        reflect.Kind.String() names it. */
    | OtherKind(kind: string)

  datatype Field = Field(name: string, tag: string, value: FieldValue)

  /** A programming error in the calling code: Go panics with this message. */
  datatype Panic = Panic(message: string)

  predicate Supported(v: FieldValue) { !v.OtherKind? }

  /** The zero value of its kind: "", false or 0. */
  predicate IsZero(v: FieldValue)
  {
    match v
    case StringValue(s) => s == ""
    case BoolValue(b) => !b
    case IntValue(i) => i == 0
    case OtherKind(_) => false
  }

  /** The wire text of a value: a string verbatim, a bool as "1" or "0", an
      int in decimal (fmt's "%d"). */
  function Render(v: FieldValue): string
    requires Supported(v)
  {
    match v
    case StringValue(s) => s
    case BoolValue(b) => if b then "1" else "0"
    case IntValue(i) => Itoa(i)
  }

  /** The key part of a json tag: the text before the first comma. */
  function TagName(tag: string): (name: string)
    ensures HasPrefix(tag, name) && ',' !in name
    ensures |name| == |tag| || tag[|name|] == ','
  {
    CutFirst(tag, ',');
    Cut(tag, ',').0
  }

  /** The comma-separated options after the key part of a json tag. */
  function TagOptions(tag: string): seq<string>
  {
    var i := Index(tag, [',']);
    if i < 0 then [] else Split(tag[i + 1..], ',')
  }

  predicate OmitEmpty(tag: string) { "omitempty" in TagOptions(tag) }

  /** The message Go panics with for a field whose tag has no key part. */
  function MissingTagPanic(f: Field): Panic
  {
    Panic("Parameter " + f.name + " missing json name tag")
  }

  /** The message Go panics with for a field of an unsupported kind. */
  function UnexpectedKindPanic(kind: string): Panic
  {
    Panic("Unexpected parameter type: " + kind)
  }

  // ---------------------------------------------------------------------
  // Hand-written codecs: a fixed list of guarded Values.Set calls

  /** One `if guard { values.Set(key, value) }` statement. */
  datatype Step = Step(key: string, guard: bool, value: string)

  /** The Set calls the steps actually make, in order. */
  function Writes(steps: seq<Step>): (sets: seq<(string, string)>)
    ensures |sets| <= |steps|
    decreases |steps|
  {
    if |steps| == 0 then []
    else (if steps[0].guard then [(steps[0].key, steps[0].value)] else []) + Writes(steps[1..])
  }

  predicate DistinctKeys(steps: seq<Step>)
  {
    forall i, j :: 0 <= i < j < |steps| ==> steps[i].key != steps[j].key
  }

  /** Running the steps from empty Values: with distinct keys, each step's key
      holds exactly its value when its guard holds and is absent otherwise, and
      no key outside the steps appears. */
  lemma {:induction false} StepsLookup(steps: seq<Step>, k: string)
    requires DistinctKeys(steps)
    ensures forall i :: 0 <= i < |steps| && steps[i].key == k ==>
      Lookup(Build([], Writes(steps)), k) == (if steps[i].guard then Some([steps[i].value]) else None)
    ensures (forall i :: 0 <= i < |steps| ==> steps[i].key != k) ==> Lookup(Build([], Writes(steps)), k) == None
  {
    BuildLookup([], Writes(steps), k);
    LastSetOfSteps(steps, k);
  }

  lemma {:induction false} LastSetOfSteps(steps: seq<Step>, k: string)
    requires DistinctKeys(steps)
    ensures forall i :: 0 <= i < |steps| && steps[i].key == k ==>
      LastSet(Writes(steps), k) == (if steps[i].guard then Some(steps[i].value) else None)
    ensures (forall i :: 0 <= i < |steps| ==> steps[i].key != k) ==> LastSet(Writes(steps), k) == None
    decreases |steps|
  {
    if |steps| > 0 {
      var ws := Writes(steps);
      var rest := Writes(steps[1..]);
      assert DistinctKeys(steps[1..]) by {
        forall i, j | 0 <= i < j < |steps[1..]| ensures steps[1..][i].key != steps[1..][j].key {
          assert steps[1..][i] == steps[i + 1] && steps[1..][j] == steps[j + 1];
        }
      }
      LastSetOfSteps(steps[1..], k);
      if steps[0].guard {
        assert ws == [(steps[0].key, steps[0].value)] + rest;
        assert ws[1..] == rest;
        LastSetCons(ws, k);
      } else {
        assert ws == rest;
      }
      forall i | 0 <= i < |steps| && steps[i].key == k
        ensures LastSet(ws, k) == (if steps[i].guard then Some(steps[i].value) else None)
      {
        if i == 0 {
          assert forall j :: 0 <= j < |steps[1..]| ==> steps[1..][j].key != k by {
            forall j | 0 <= j < |steps[1..]| ensures steps[1..][j].key != k {
              assert steps[1..][j] == steps[j + 1];
            }
          }
        } else {
          assert steps[1..][i - 1] == steps[i];
        }
      }
      if forall i :: 0 <= i < |steps| ==> steps[i].key != k {
        assert forall j :: 0 <= j < |steps[1..]| ==> steps[1..][j].key != k by {
          forall j | 0 <= j < |steps[1..]| ensures steps[1..][j].key != k {
            assert steps[1..][j] == steps[j + 1];
          }
        }
      }
    }
  }
}

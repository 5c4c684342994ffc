/** JSON text (RFC 8259) as Go's encoding/json reads and writes it: a parser
    that keeps the exact text of every value (what an UnmarshalJSON method is
    handed) and the compact, HTML-safe writer of json.Marshal. */
module Json {
  import opened Base
  import Hex

  datatype Value =
    | Null
    | Bool(b: bool)
    /** A number, kept as its literal text. */
    | Number(literal: string)
    | String(s: string)
    | Array(items: seq<Node>)
    | Object(members: seq<Member>)

  /** A value together with the exact text it was read from. */
  datatype Node = Node(raw: string, value: Value)

  datatype Member = Member(key: string, node: Node)

  datatype JsonError =
    /** The input is not JSON. Go's message and offset are not modelled. */
    | Syntax
    /** *json.UnmarshalTypeError: a JSON value ("string", "number 1.5",
        "array", …) that does not fit the Go type it is decoded into. */
    | UnmarshalType(value: string, goType: string)

  // ---------------------------------------------------------------------
  // Writing (json.Marshal)

  /** One character inside a string literal. Besides '"' and '\', control
      characters, '<', '>', '&' and the line and paragraph separators
      U+2028/U+2029 are escaped; \n, \r and \t use their short forms and the
      other escapes are \u00xx in lower-case hex. */
  function EscapeChar(c: char): (e: string)
    ensures |e| > 0
  {
    if c == '"' then "\\\""
    else if c == '\\' then "\\\\"
    else if c == '\n' then "\\n"
    else if c == '\r' then "\\r"
    else if c == '\t' then "\\t"
    else if c < ' ' || c == '<' || c == '>' || c == '&' then
      "\\u00" + [Hex.Digit(c as int / 16), Hex.Digit(c as int % 16)]
    else if c as int == 0x2028 || c as int == 0x2029 then
      "\\u202" + [Hex.Digit(c as int % 16)]
    else [c]
  }

  function Escape(s: string): string
    decreases |s|
  {
    if |s| == 0 then "" else EscapeChar(s[0]) + Escape(s[1..])
  }

  function Quote(s: string): string
  {
    "\"" + Escape(s) + "\""
  }

  /** A character json.Marshal writes as itself. */
  predicate Unescaped(c: char)
  {
    ' ' <= c && c != '"' && c != '\\' && c != '<' && c != '>' && c != '&'
    && c as int != 0x2028 && c as int != 0x2029
  }

  /** Text with nothing to escape is written as it is. */
  lemma {:induction false} EscapeUnescaped(s: string)
    requires forall i :: 0 <= i < |s| ==> Unescaped(s[i])
    ensures Escape(s) == s
    decreases |s|
  {
    if |s| > 0 {
      EscapeUnescaped(s[1..]);
      assert [s[0]] + s[1..] == s;
    }
  }

  /** Compact output: no whitespace, members in the given order. */
  function Serialize(v: Value): string
    decreases v
  {
    match v
    case Null => "null"
    case Bool(b) => if b then "true" else "false"
    case Number(lit) => lit
    case String(s) => Quote(s)
    case Array(items) => "[" + SerializeItems(items) + "]"
    case Object(members) => "{" + SerializeMembers(members) + "}"
  }

  function SerializeItems(items: seq<Node>): string
    decreases items
  {
    if |items| == 0 then ""
    else Serialize(items[0].value) + (if |items| == 1 then "" else "," + SerializeItems(items[1..]))
  }

  function SerializeMembers(members: seq<Member>): string
    decreases members
  {
    if |members| == 0 then ""
    else MemberText(members[0]) + (if |members| == 1 then "" else "," + SerializeMembers(members[1..]))
  }

  function MemberText(m: Member): string
    decreases m
  {
    Quote(m.key) + ":" + Serialize(m.node.value)
  }

  /** The number literals json.Marshal writes for Go integers. */
  predicate IntLiteral(lit: string)
  {
    var digits := if |lit| > 0 && lit[0] == '-' then lit[1..] else lit;
    |digits| > 0 && AllDigits(digits) && (digits[0] == '0' ==> |digits| == 1)
  }

  lemma ItoaIntLiteral(n: int)
    ensures IntLiteral(Itoa(n))
  {
    if n < 0 { assert Itoa(n)[1..] == NatToDecimal(-n); }
  }

  /** Values json.Marshal can write: every number is an integer literal. */
  predicate WellFormed(v: Value)
    decreases v
  {
    match v
    case Number(lit) => IntLiteral(lit)
    case Array(items) => forall k :: 0 <= k < |items| ==> WellFormed(items[k].value)
    case Object(members) => forall k :: 0 <= k < |members| ==> WellFormed(members[k].node.value)
    case _ => true
  }

  /** The tree the parser builds from Serialize(v): each nested value carries
      its own serialization as its text. */
  function Annotate(v: Value): Value
    decreases v
  {
    match v
    case Array(items) => Array(AnnotateItems(items))
    case Object(members) => Object(AnnotateMembers(members))
    case _ => v
  }

  function AnnotateItems(items: seq<Node>): (r: seq<Node>)
    ensures |r| == |items|
    decreases items
  {
    if |items| == 0 then []
    else [Node(Serialize(items[0].value), Annotate(items[0].value))] + AnnotateItems(items[1..])
  }

  function AnnotateMembers(members: seq<Member>): (r: seq<Member>)
    ensures |r| == |members|
    decreases members
  {
    if |members| == 0 then []
    else
      [Member(members[0].key, Node(Serialize(members[0].node.value), Annotate(members[0].node.value)))]
      + AnnotateMembers(members[1..])
  }

  // ---------------------------------------------------------------------
  // Reading (the scanner and decoder's literal handling)

  predicate IsWs(c: char) { c == ' ' || c == '\t' || c == '\n' || c == '\r' }

  function SkipWs(s: string, i: nat): (j: nat)
    requires i <= |s|
    ensures i <= j <= |s|
    ensures j < |s| ==> !IsWs(s[j])
    ensures forall k :: i <= k < j ==> IsWs(s[k])
    decreases |s| - i
  {
    if i < |s| && IsWs(s[i]) then SkipWs(s, i + 1) else i
  }

  function HexValue(c: char): Option<int>
  {
    if '0' <= c <= '9' then Some(c as int - '0' as int)
    else if 'a' <= c <= 'f' then Some(c as int - 'a' as int + 10)
    else if 'A' <= c <= 'F' then Some(c as int - 'A' as int + 10)
    else None
  }

  /** The four hex digits of a \u escape starting at `i`. */
  function Hex4(s: string, i: nat): (r: Option<int>)
    ensures r.Some? ==> i + 4 <= |s| && 0 <= r.value < 0x1_0000
  {
    if i + 4 <= |s| && HexValue(s[i]).Some? && HexValue(s[i + 1]).Some?
       && HexValue(s[i + 2]).Some? && HexValue(s[i + 3]).Some? then
      var d := [HexValue(s[i]).value, HexValue(s[i + 1]).value, HexValue(s[i + 2]).value, HexValue(s[i + 3]).value];
      assert forall k :: 0 <= k < 4 ==> 0 <= d[k] < 16;
      Some(((d[0] * 16 + d[1]) * 16 + d[2]) * 16 + d[3])
    else None
  }

  /** The low surrogate of a \uXXXX escape at `i`, if there is one. */
  function LowSurrogateAt(s: string, i: nat): (r: Option<int>)
    ensures r.Some? ==> i + 6 <= |s| && 0xDC00 <= r.value < 0xE000
  {
    if i + 2 <= |s| && s[i] == '\\' && s[i + 1] == 'u' then
      match Hex4(s, i + 2)
      case Some(u) => if 0xDC00 <= u < 0xE000 then Some(u) else None
      case None => None
    else None
  }

  /** One step through a string literal's body. */
  datatype StringStep =
    | Closed
    /** A character decoded from the next `width` characters of input. */
    | Decoded(c: char, width: nat)
    | Invalid

  /** The step at `i`: the closing quote, a plain character (control
      characters are not allowed), or an escape sequence. */
  function StepAt(s: string, i: nat): (r: StringStep)
    requires i < |s|
    ensures r.Decoded? ==> 0 < r.width && i + r.width <= |s|
  {
    if s[i] == '"' then Closed
    else if s[i] < ' ' then Invalid
    else if s[i] != '\\' then Decoded(s[i], 1)
    else EscapeAt(s, i)
  }

  /** A backslash escape at `i`: one of the short forms or \uXXXX. */
  function EscapeAt(s: string, i: nat): (r: StringStep)
    requires i < |s|
    ensures r.Decoded? ==> 0 < r.width && i + r.width <= |s|
  {
    if i + 1 == |s| then Invalid
    else
      var e := s[i + 1];
      if e == '"' || e == '\\' || e == '/' then Decoded(e, 2)
      else if e == 'b' then Decoded(8 as char, 2)
      else if e == 'f' then Decoded(12 as char, 2)
      else if e == 'n' then Decoded('\n', 2)
      else if e == 'r' then Decoded('\r', 2)
      else if e == 't' then Decoded('\t', 2)
      else if e == 'u' then UnicodeAt(s, i)
      else Invalid
  }

  /** A \uXXXX escape at `i`. A high surrogate followed by an escaped low
      surrogate is one character; any other surrogate becomes U+FFFD. */
  function UnicodeAt(s: string, i: nat): (r: StringStep)
    requires i < |s|
    ensures r.Decoded? ==> 0 < r.width && i + r.width <= |s|
  {
    match Hex4(s, i + 2)
    case None => Invalid
    case Some(u) =>
      if u < 0xD800 || 0xE000 <= u then Decoded(u as char, 6)
      else if u < 0xDC00 && LowSurrogateAt(s, i + 6).Some? then
        var low := LowSurrogateAt(s, i + 6).value;
        Decoded(((u - 0xD800) * 0x400 + (low - 0xDC00) + 0x1_0000) as char, 12)
      else Decoded(0xFFFD as char, 6)
  }

  /** The body of a string literal from `i` (after the opening quote) to its
      closing quote: the decoded text and the index after the quote. */
  function ParseString(s: string, i: nat, acc: string): (r: Result<(string, nat), JsonError>)
    requires i <= |s|
    ensures r.Ok? ==> i < r.value.1 <= |s|
    ensures r.Err? ==> r.error == Syntax
    decreases |s| - i
  {
    if i == |s| then Err(Syntax)
    else match StepAt(s, i)
      case Closed => Ok((acc, i + 1))
      case Decoded(c, width) => ParseString(s, i + width, acc + [c])
      case Invalid => Err(Syntax)
  }

  /** The end of the run of decimal digits starting at `i`. */
  function DigitsEnd(s: string, i: nat): (j: nat)
    requires i <= |s|
    ensures i <= j <= |s|
    ensures forall k :: i <= k < j ==> IsDigit(s[k])
    ensures j < |s| ==> !IsDigit(s[j])
    decreases |s| - i
  {
    if i < |s| && IsDigit(s[i]) then DigitsEnd(s, i + 1) else i
  }

  /** A run of at least one digit starting at `i`. */
  function SomeDigits(s: string, i: nat): (r: Result<nat, JsonError>)
    requires i <= |s|
    ensures r.Ok? ==> i < r.value <= |s|
    ensures r.Err? ==> r.error == Syntax
  {
    if i < |s| && IsDigit(s[i]) then Ok(DigitsEnd(s, i)) else Err(Syntax)
  }

  /** A number: -? (0 | [1-9][0-9]*) (. [0-9]+)? ([eE] [+-]? [0-9]+)? */
  function ParseNumber(s: string, i: nat): (r: Result<(Value, nat), JsonError>)
    requires i <= |s|
    ensures r.Ok? ==> i < r.value.1 <= |s|
    ensures r.Err? ==> r.error == Syntax
  {
    var j := if i < |s| && s[i] == '-' then i + 1 else i;
    if j == |s| || !IsDigit(s[j]) then Err(Syntax)
    else
      var k := if s[j] == '0' then j + 1 else DigitsEnd(s, j);
      var fraction :- if k < |s| && s[k] == '.' then SomeDigits(s, k + 1) else Ok(k);
      var exponent :-
        if fraction < |s| && (s[fraction] == 'e' || s[fraction] == 'E') then
          SomeDigits(s, if fraction + 1 < |s| && (s[fraction + 1] == '+' || s[fraction + 1] == '-') then fraction + 2 else fraction + 1)
        else Ok(fraction);
      Ok((Number(s[i..exponent]), exponent))
  }

  function ParseLiteral(s: string, i: nat, word: string, v: Value): (r: Result<(Value, nat), JsonError>)
    requires i <= |s| && |word| > 0
    ensures r.Ok? ==> i < r.value.1 <= |s|
    ensures r.Err? ==> r.error == Syntax
  {
    if OccursAt(s, word, i) then Ok((v, i + |word|)) else Err(Syntax)
  }

  /** The value starting exactly at `i`, and the index after it. */
  function ParseValue(s: string, i: nat): (r: Result<(Value, nat), JsonError>)
    requires i <= |s|
    ensures r.Ok? ==> i < r.value.1 <= |s|
    ensures r.Err? ==> r.error == Syntax
    decreases |s| - i, 1
  {
    if i == |s| then Err(Syntax)
    else
      var c := s[i];
      if c == 'n' then ParseLiteral(s, i, "null", Null)
      else if c == 't' then ParseLiteral(s, i, "true", Bool(true))
      else if c == 'f' then ParseLiteral(s, i, "false", Bool(false))
      else if c == '"' then ParseStringValue(s, i)
      else if c == '[' then ParseArray(s, i)
      else if c == '{' then ParseObject(s, i)
      else if c == '-' || IsDigit(c) then ParseNumber(s, i)
      else Err(Syntax)
  }

  /** A string literal whose opening quote is at `i`. */
  function ParseStringValue(s: string, i: nat): (r: Result<(Value, nat), JsonError>)
    requires i < |s|
    ensures r.Ok? ==> i < r.value.1 <= |s|
    ensures r.Err? ==> r.error == Syntax
  {
    var (text, j) :- ParseString(s, i + 1, "");
    Ok((String(text), j))
  }

  /** An array whose opening bracket is at `i`. */
  function ParseArray(s: string, i: nat): (r: Result<(Value, nat), JsonError>)
    requires i < |s|
    ensures r.Ok? ==> i < r.value.1 <= |s|
    ensures r.Err? ==> r.error == Syntax
    decreases |s| - i, 0
  {
    var j := SkipWs(s, i + 1);
    if j < |s| && s[j] == ']' then Ok((Array([]), j + 1)) else ParseItems(s, j, [])
  }

  /** An object whose opening brace is at `i`. */
  function ParseObject(s: string, i: nat): (r: Result<(Value, nat), JsonError>)
    requires i < |s|
    ensures r.Ok? ==> i < r.value.1 <= |s|
    ensures r.Err? ==> r.error == Syntax
    decreases |s| - i, 0
  {
    var j := SkipWs(s, i + 1);
    if j < |s| && s[j] == '}' then Ok((Object([]), j + 1)) else ParseMembers(s, j, [])
  }

  /** Array elements from `i` (at an element) to the closing bracket. */
  function ParseItems(s: string, i: nat, acc: seq<Node>): (r: Result<(Value, nat), JsonError>)
    requires 0 < i <= |s|
    ensures r.Ok? ==> i < r.value.1 <= |s|
    ensures r.Err? ==> r.error == Syntax
    decreases |s| - i, 2
  {
    var (v, j) :- ParseValue(s, i);
    var node := Node(s[i..j], v);
    var k := SkipWs(s, j);
    if k < |s| && s[k] == ',' then ParseItems(s, SkipWs(s, k + 1), acc + [node])
    else if k < |s| && s[k] == ']' then Ok((Array(acc + [node]), k + 1))
    else Err(Syntax)
  }

  /** Object members from `i` (at a key) to the closing brace. */
  function ParseMembers(s: string, i: nat, acc: seq<Member>): (r: Result<(Value, nat), JsonError>)
    requires 0 < i <= |s|
    ensures r.Ok? ==> i < r.value.1 <= |s|
    ensures r.Err? ==> r.error == Syntax
    decreases |s| - i, 3
  {
    if i == |s| || s[i] != '"' then Err(Syntax)
    else
      var (key, j) :- ParseString(s, i + 1, "");
      ParseMemberValue(s, j, key, acc)
  }

  /** The rest of a member after its key, which ends before `j`: the colon,
      the value, then "," and more members or the closing brace. */
  function ParseMemberValue(s: string, j: nat, key: string, acc: seq<Member>): (r: Result<(Value, nat), JsonError>)
    requires 0 < j <= |s|
    ensures r.Ok? ==> j < r.value.1 <= |s|
    ensures r.Err? ==> r.error == Syntax
    decreases |s| - j, 2
  {
    var k := SkipWs(s, j);
    if k == |s| || s[k] != ':' then Err(Syntax)
    else
      var l := SkipWs(s, k + 1);
      var (v, m) :- ParseValue(s, l);
      var member := Member(key, Node(s[l..m], v));
      var n := SkipWs(s, m);
      if n < |s| && s[n] == ',' then ParseMembers(s, SkipWs(s, n + 1), acc + [member])
      else if n < |s| && s[n] == '}' then Ok((Object(acc + [member]), n + 1))
      else Err(Syntax)
  }

  /** A whole JSON text: one value with optional surrounding whitespace. The
      node's text is the value without that whitespace. */
  function Parse(s: string): (r: Result<Node, JsonError>)
    ensures r.Ok? ==> |r.value.raw| > 0 && !IsWs(r.value.raw[0])
    ensures r.Err? ==> r.error == Syntax
  {
    var i := SkipWs(s, 0);
    var (v, j) :- ParseValue(s, i);
    if SkipWs(s, j) == |s| then Ok(Node(s[i..j], v)) else Err(Syntax)
  }


  // ---------------------------------------------------------------------
  // Writing then reading gives the value back
  //
  // The proofs keep facts about the written text (sequence identities) in
  // lemmas of their own, apart from the facts about the parser.

  /** The text after a serialized value inside a larger one. */
  predicate Delimited(s: string, j: int)
  {
    0 <= j <= |s| && (j == |s| || s[j] == ',' || s[j] == ']' || s[j] == '}')
  }

  /** `t` occurs in `s` at `i`, stated one character at a time so that the
      verifier unfolds it only as far as a proof asks. */
  predicate TextAt(s: string, t: string, i: int)
    decreases |t|
  {
    0 <= i && i + |t| <= |s| && (|t| == 0 || (s[i] == t[0] && TextAt(s, t[1..], i + 1)))
  }

  lemma {:induction false} TextSplit(s: string, a: string, b: string, i: int)
    requires TextAt(s, a + b, i)
    ensures TextAt(s, a, i) && TextAt(s, b, i + |a|)
    decreases |a|
  {
    if |a| == 0 {
      assert a + b == b;
    } else {
      assert (a + b)[0] == a[0];
      assert (a + b)[1..] == a[1..] + b;
      TextSplit(s, a[1..], b, i + 1);
    }
  }

  lemma {:induction false} TextIndex(s: string, t: string, i: int, k: int)
    requires TextAt(s, t, i) && 0 <= k < |t|
    ensures s[i + k] == t[k]
    decreases k
  {
    if k > 0 {
      TextIndex(s, t[1..], i + 1, k - 1);
    }
  }

  lemma {:induction false} TextOfIndex(s: string, t: string, i: int)
    requires 0 <= i && i + |t| <= |s| && forall k :: 0 <= k < |t| ==> s[i + k] == t[k]
    ensures TextAt(s, t, i)
    decreases |t|
  {
    if |t| > 0 {
      assert s[i + 0] == t[0];
      forall k | 0 <= k < |t[1..]| ensures s[i + 1 + k] == t[1..][k] { assert s[i + (k + 1)] == t[k + 1]; }
      TextOfIndex(s, t[1..], i + 1);
    }
  }

  /** The slice the parser takes of an occurrence is the text itself. */
  lemma TextSlice(s: string, t: string, i: int)
    requires TextAt(s, t, i)
    ensures s[i..i + |t|] == t && OccursAt(s, t, i)
  {
    forall k | 0 <= k < |t| ensures s[i..i + |t|][k] == t[k] { TextIndex(s, t, i, k); }
  }

  lemma AppendEmpty<T>(a: seq<T>)
    ensures a + [] == a
  {
  }

  lemma AppendStep<T>(a: seq<T>, b: seq<T>)
    requires |b| > 0
    ensures a + [b[0]] + b[1..] == a + b
  {
  }

  /** Parsing what json.Marshal writes gives back the value, with each nested
      value's text being its own serialization. */
  lemma SerializeParse(v: Value)
    requires WellFormed(v)
    ensures Parse(Serialize(v)) == Ok(Node(Serialize(v), Annotate(v)))
  {
    var s := Serialize(v);
    SerializeStart(v);
    assert SkipWs(s, 0) == 0;
    TextOfIndex(s, s, 0);
    ParseValueAt(s, 0, v);
    TextSlice(s, s, 0);
  }

  /** A serialized value starts with a character that begins no whitespace
      and closes no container. */
  lemma SerializeStart(v: Value)
    requires WellFormed(v)
    ensures |Serialize(v)| > 0
    ensures var c := Serialize(v)[0]; !IsWs(c) && c != ']' && c != '}' && c != ','
  {
    match v
    case Number(lit) => assert IntLiteral(lit);
    case _ =>
  }

  lemma {:induction false} ParseValueAt(s: string, i: nat, v: Value)
    requires WellFormed(v)
    requires TextAt(s, Serialize(v), i) && Delimited(s, i + |Serialize(v)|)
    ensures ParseValue(s, i) == Ok((Annotate(v), i + |Serialize(v)|))
    decreases v, 0
  {
    hide ParseValue, ParseArray, ParseObject, ParseItems, ParseMembers, ParseMemberValue, ParseString, ParseNumber, TextAt;
    match v
    case Null => LiteralAt(s, i, "null", Null);
    case Bool(b) => LiteralAt(s, i, if b then "true" else "false", v);
    case Number(lit) => NumberAt(s, i, lit);
    case String(str) => StringAt(s, i, str);
    case Array(items) => ArrayAt(s, i, items);
    case Object(members) => ObjectAt(s, i, members);
  }

  lemma Assoc<T>(a: seq<T>, b: seq<T>, c: seq<T>)
    ensures (a + b) + c == a + (b + c)
  {
  }

  lemma LiteralAt(s: string, i: nat, word: string, v: Value)
    requires word in {"null", "true", "false"} && TextAt(s, word, i)
    requires v == (if word == "null" then Null else Bool(word == "true"))
    ensures ParseValue(s, i) == Ok((v, i + |word|))
  {
    TextIndex(s, word, i, 0);
    TextSlice(s, word, i);
  }

  lemma NumberAt(s: string, i: nat, lit: string)
    requires IntLiteral(lit) && TextAt(s, lit, i) && Delimited(s, i + |lit|)
    ensures ParseValue(s, i) == Ok((Number(lit), i + |lit|))
  {
    TextIndex(s, lit, i, 0);
    NumberDispatch(s, i);
    ParseIntLiteral(s, i, lit);
  }

  lemma NumberDispatch(s: string, i: nat)
    requires i < |s| && (s[i] == '-' || IsDigit(s[i]))
    ensures ParseValue(s, i) == ParseNumber(s, i)
  {
  }

  lemma QuoteText(str: string)
    ensures Quote(str) == "\"" + (Escape(str) + "\"")
    ensures |Quote(str)| == |Escape(str)| + 2
  {
    Assoc("\"", Escape(str), "\"");
  }

  /** A quoted string at `i` is read back as itself. */
  lemma QuotedAt(s: string, i: nat, str: string)
    requires TextAt(s, Quote(str), i)
    ensures i < |s| && s[i] == '"'
    ensures ParseString(s, i + 1, "") == Ok((str, i + |Quote(str)|))
  {
    hide ParseString, TextAt, Escape;
    QuoteText(str);
    TextSplit(s, "\"", Escape(str) + "\"", i);
    TextIndex(s, "\"", i, 0);
    ParseEscapedFresh(s, i + 1, str);
  }

  lemma StringAt(s: string, i: nat, str: string)
    requires TextAt(s, Quote(str), i)
    ensures ParseValue(s, i) == Ok((String(str), i + |Quote(str)|))
  {
    QuotedAt(s, i, str);
  }

  lemma ParseEscapedFresh(s: string, i: nat, str: string)
    requires TextAt(s, Escape(str) + "\"", i)
    ensures ParseString(s, i, "") == Ok((str, i + |Escape(str)| + 1))
  {
    ParseEscaped(s, i, str, "");
    AppendEmptyLeft(str);
  }

  lemma AppendEmptyLeft<T>(a: seq<T>)
    ensures [] + a == a
  {
  }

  lemma ArrayText(items: seq<Node>)
    ensures Serialize(Array(items)) == "[" + (SerializeItems(items) + "]")
    ensures |Serialize(Array(items))| == |SerializeItems(items)| + 2
  {
    Assoc("[", SerializeItems(items), "]");
  }

  /** What follows an opening bracket: "]" at once, or the elements. */
  lemma ArrayOpen(s: string, i: nat)
    requires i + 1 < |s| && s[i] == '[' && !IsWs(s[i + 1])
    ensures ParseValue(s, i) == if s[i + 1] == ']' then Ok((Array([]), i + 2)) else ParseItems(s, i + 1, [])
  {
    assert SkipWs(s, i + 1) == i + 1;
  }

  lemma {:induction false} ArrayAt(s: string, i: nat, items: seq<Node>)
    requires forall k :: 0 <= k < |items| ==> WellFormed(items[k].value)
    requires TextAt(s, Serialize(Array(items)), i)
    ensures ParseValue(s, i) == Ok((Array(AnnotateItems(items)), i + |Serialize(Array(items))|))
    decreases items, 4
  {
    ArrayText(items);
    TextSplit(s, "[", SerializeItems(items) + "]", i);
    TextIndex(s, "[", i, 0);
    TextIndex(s, SerializeItems(items) + "]", i + 1, 0);
    if |items| == 0 {
      ArrayOpen(s, i);
    } else {
      NonEmptyArrayAt(s, i, items);
    }
  }

  lemma {:induction false} NonEmptyArrayAt(s: string, i: nat, items: seq<Node>)
    requires |items| > 0 && forall k :: 0 <= k < |items| ==> WellFormed(items[k].value)
    requires i + 1 < |s| && s[i] == '[' && TextAt(s, SerializeItems(items) + "]", i + 1)
    ensures ParseValue(s, i) == Ok((Array(AnnotateItems(items)), i + |SerializeItems(items)| + 2))
    decreases items, 3
  {
    ItemsStart(items);
    TextIndex(s, SerializeItems(items) + "]", i + 1, 0);
    ArrayOpen(s, i);
    ParseItemsAt(s, i + 1, items, []);
    AppendEmptyLeft(AnnotateItems(items));
  }

  lemma ItemsStart(items: seq<Node>)
    requires |items| > 0 && WellFormed(items[0].value)
    ensures var t := SerializeItems(items) + "]"; !IsWs(t[0]) && t[0] != ']'
  {
    SerializeStart(items[0].value);
  }

  /** The first element's text, then "]" or "," and the rest. */
  lemma ItemsText(items: seq<Node>)
    requires |items| > 0
    ensures SerializeItems(items) + "]" == Serialize(items[0].value)
      + (if |items| == 1 then "]" else "," + (SerializeItems(items[1..]) + "]"))
    ensures |items| > 1 ==> |SerializeItems(items)| == |Serialize(items[0].value)| + 1 + |SerializeItems(items[1..])|
    ensures |items| == 1 ==> |SerializeItems(items)| == |Serialize(items[0].value)|
  {
    var first := Serialize(items[0].value);
    if |items| == 1 {
      AppendEmpty(first);
    } else {
      var rest := SerializeItems(items[1..]);
      Assoc(first, "," + rest, "]");
      Assoc(",", rest, "]");
    }
  }

  /** An element followed by ",": the rest of the elements follow. */
  lemma ItemsStep(s: string, i: nat, acc: seq<Node>, v: Value, j: nat)
    requires 0 < i <= |s| && ParseValue(s, i) == Ok((v, j))
    requires j + 1 < |s| && s[j] == ',' && !IsWs(s[j + 1])
    ensures ParseItems(s, i, acc) == ParseItems(s, j + 1, acc + [Node(s[i..j], v)])
  {
    hide ParseValue, ParseString, ParseNumber, ParseArray, ParseObject, ParseMembers, ParseMemberValue;
    assert SkipWs(s, j) == j;
    assert SkipWs(s, j + 1) == j + 1;
  }

  /** The last element, followed by "]". */
  lemma ItemsLast(s: string, i: nat, acc: seq<Node>, v: Value, j: nat)
    requires 0 < i <= |s| && ParseValue(s, i) == Ok((v, j))
    requires j < |s| && s[j] == ']'
    ensures ParseItems(s, i, acc) == Ok((Array(acc + [Node(s[i..j], v)]), j + 1))
  {
    hide ParseValue, ParseString, ParseNumber, ParseArray, ParseObject, ParseMembers, ParseMemberValue;
    assert SkipWs(s, j) == j;
  }

  lemma {:induction false} ParseItemsAt(s: string, i: nat, items: seq<Node>, acc: seq<Node>)
    requires 0 < i && |items| > 0
    requires forall k :: 0 <= k < |items| ==> WellFormed(items[k].value)
    requires TextAt(s, SerializeItems(items) + "]", i)
    ensures ParseItems(s, i, acc) == Ok((Array(acc + AnnotateItems(items)), i + |SerializeItems(items)| + 1))
    decreases items, 2
  {
    if |items| == 1 {
      LastItemAt(s, i, items, acc);
    } else {
      MoreItemsAt(s, i, items, acc);
    }
  }

  lemma {:induction false} LastItemAt(s: string, i: nat, items: seq<Node>, acc: seq<Node>)
    requires 0 < i && |items| == 1 && WellFormed(items[0].value)
    requires TextAt(s, SerializeItems(items) + "]", i)
    ensures ParseItems(s, i, acc) == Ok((Array(acc + AnnotateItems(items)), i + |SerializeItems(items)| + 1))
    decreases items, 1
  {
    hide ParseValue, ParseArray, ParseObject, ParseItems, ParseMembers, ParseMemberValue, ParseString, ParseNumber;
    hide TextAt, Serialize, SerializeItems, SerializeMembers, MemberText, Quote, Annotate, WellFormed;
    var first := Serialize(items[0].value);
    var j := i + |first|;
    ItemsText(items);
    TextSplit(s, first, "]", i);
    TextIndex(s, "]", j, 0);
    ParseValueAt(s, i, items[0].value);
    ItemsLast(s, i, acc, Annotate(items[0].value), j);
    FirstItem(s, i, items, acc);
  }

  lemma {:induction false} MoreItemsAt(s: string, i: nat, items: seq<Node>, acc: seq<Node>)
    requires 0 < i && |items| > 1
    requires forall k :: 0 <= k < |items| ==> WellFormed(items[k].value)
    requires TextAt(s, SerializeItems(items) + "]", i)
    ensures ParseItems(s, i, acc) == Ok((Array(acc + AnnotateItems(items)), i + |SerializeItems(items)| + 1))
    decreases items, 1
  {
    hide ParseValue, ParseArray, ParseObject, ParseItems, ParseMembers, ParseMemberValue, ParseString, ParseNumber;
    hide TextAt, Serialize, SerializeItems, SerializeMembers, MemberText, Quote, Annotate, WellFormed;
    var text := Serialize(items[0].value);
    var j := i + |text|;
    var later := AnnotateItems(items[1..]);
    var end := j + 1 + |SerializeItems(items[1..])| + 1;
    MoreItemsParts(s, i, items, acc);
    ItemsMore(s, i, acc, Annotate(items[0].value), j, text, later, end);
    ItemsTotals(i, items, acc);
  }

  /** The first element, the comma after it, and the elements after that. */
  lemma {:induction false} MoreItemsParts(s: string, i: nat, items: seq<Node>, acc: seq<Node>)
    requires 0 < i && |items| > 1
    requires forall k :: 0 <= k < |items| ==> WellFormed(items[k].value)
    requires TextAt(s, SerializeItems(items) + "]", i)
    ensures var text := Serialize(items[0].value); var j := i + |text|;
      && 0 < i <= |s| && ParseValue(s, i) == Ok((Annotate(items[0].value), j))
      && j + 1 < |s| && s[j] == ',' && !IsWs(s[j + 1]) && s[i..j] == text
      && ParseItems(s, j + 1, acc + [Node(text, Annotate(items[0].value))])
         == Ok((Array(acc + [Node(text, Annotate(items[0].value))] + AnnotateItems(items[1..])),
                j + 1 + |SerializeItems(items[1..])| + 1))
    decreases items, 0
  {
    hide ParseValue, ParseArray, ParseObject, ParseItems, ParseMembers, ParseMemberValue, ParseString, ParseNumber;
    hide TextAt, Serialize, SerializeItems, SerializeMembers, MemberText, Quote, Annotate, WellFormed;
    var first := Serialize(items[0].value);
    var rest := items[1..];
    var tail := SerializeItems(rest) + "]";
    var j := i + |first|;
    ItemsText(items);
    TextSplit(s, first, "," + tail, i);
    TextSplit(s, ",", tail, j);
    TextIndex(s, ",", j, 0);
    RestWellFormed(items);
    ItemsStart(rest);
    TextIndex(s, tail, j + 1, 0);
    ParseValueAt(s, i, items[0].value);
    TextSlice(s, first, i);
    ParseItemsAt(s, j + 1, rest, acc + [Node(first, Annotate(items[0].value))]);
  }

  /** How the first node and the rest add up to the whole. */
  lemma ItemsTotals(i: nat, items: seq<Node>, acc: seq<Node>)
    requires |items| > 1
    ensures var node := Node(Serialize(items[0].value), Annotate(items[0].value));
      && acc + [node] + AnnotateItems(items[1..]) == acc + AnnotateItems(items)
      && i + |Serialize(items[0].value)| + 1 + |SerializeItems(items[1..])| + 1 == i + |SerializeItems(items)| + 1
  {
    var node := Node(Serialize(items[0].value), Annotate(items[0].value));
    assert AnnotateItems(items) == [node] + AnnotateItems(items[1..]);
    Assoc(acc, [node], AnnotateItems(items[1..]));
    ItemsText(items);
  }

  /** Rewriting a parse result with equal parts. */
  lemma SameArray(s: string, i: nat, acc: seq<Node>, a: seq<Node>, b: seq<Node>, e1: nat, e2: nat)
    requires 0 < i <= |s| && ParseItems(s, i, acc) == Ok((Array(a), e1)) && a == b && e1 == e2
    ensures ParseItems(s, i, acc) == Ok((Array(b), e2))
  {
  }

  /** An element followed by ",", then the result of the elements after it. */
  lemma ItemsMore(s: string, i: nat, acc: seq<Node>, v: Value, j: nat, text: string, later: seq<Node>, end: nat)
    requires 0 < i <= |s| && ParseValue(s, i) == Ok((v, j))
    requires j + 1 < |s| && s[j] == ',' && !IsWs(s[j + 1]) && s[i..j] == text
    requires ParseItems(s, j + 1, acc + [Node(text, v)]) == Ok((Array(acc + [Node(text, v)] + later), end))
    ensures ParseItems(s, i, acc) == Ok((Array(acc + [Node(text, v)] + later), end))
  {
    ItemsStep(s, i, acc, v, j);
  }

  lemma RestWellFormed(items: seq<Node>)
    requires |items| > 0 && forall k :: 0 <= k < |items| ==> WellFormed(items[k].value)
    ensures forall k :: 0 <= k < |items[1..]| ==> WellFormed(items[1..][k].value)
  {
    forall k | 0 <= k < |items[1..]| ensures WellFormed(items[1..][k].value) { assert items[1..][k] == items[k + 1]; }
  }

  /** The node built for the first element, and how it joins the rest. */
  lemma FirstItem(s: string, i: nat, items: seq<Node>, acc: seq<Node>)
    requires |items| > 0 && TextAt(s, Serialize(items[0].value), i)
    ensures s[i..i + |Serialize(items[0].value)|] == Serialize(items[0].value)
    ensures var node := Node(Serialize(items[0].value), Annotate(items[0].value));
      && acc + [node] + AnnotateItems(items[1..]) == acc + AnnotateItems(items)
      && (|items| == 1 ==> acc + [node] == acc + AnnotateItems(items))
  {
    TextSlice(s, Serialize(items[0].value), i);
    var node := Node(Serialize(items[0].value), Annotate(items[0].value));
    var rest := AnnotateItems(items[1..]);
    assert AnnotateItems(items) == [node] + rest;
    Assoc(acc, [node], rest);
    if |items| == 1 {
      assert rest == [];
      AppendEmpty(acc + [node]);
    }
  }

  lemma ObjectText(members: seq<Member>)
    ensures Serialize(Object(members)) == "{" + (SerializeMembers(members) + "}")
    ensures |Serialize(Object(members))| == |SerializeMembers(members)| + 2
  {
    Assoc("{", SerializeMembers(members), "}");
  }

  /** What follows an opening brace: "}" at once, or the members. */
  lemma ObjectOpen(s: string, i: nat)
    requires i + 1 < |s| && s[i] == '{' && !IsWs(s[i + 1])
    ensures ParseValue(s, i) == if s[i + 1] == '}' then Ok((Object([]), i + 2)) else ParseMembers(s, i + 1, [])
  {
    assert SkipWs(s, i + 1) == i + 1;
  }

  lemma {:induction false} ObjectAt(s: string, i: nat, members: seq<Member>)
    requires forall k :: 0 <= k < |members| ==> WellFormed(members[k].node.value)
    requires TextAt(s, Serialize(Object(members)), i)
    ensures ParseValue(s, i) == Ok((Object(AnnotateMembers(members)), i + |Serialize(Object(members))|))
    decreases members, 4
  {
    hide ParseValue, ParseArray, ParseObject, ParseItems, ParseMembers, ParseMemberValue, ParseString, ParseNumber, TextAt;
    ObjectText(members);
    TextSplit(s, "{", SerializeMembers(members) + "}", i);
    TextIndex(s, "{", i, 0);
    TextIndex(s, SerializeMembers(members) + "}", i + 1, 0);
    if |members| == 0 {
      ObjectOpen(s, i);
    } else {
      NonEmptyObjectAt(s, i, members);
    }
  }

  lemma {:induction false} NonEmptyObjectAt(s: string, i: nat, members: seq<Member>)
    requires |members| > 0 && forall k :: 0 <= k < |members| ==> WellFormed(members[k].node.value)
    requires i + 1 < |s| && s[i] == '{' && TextAt(s, SerializeMembers(members) + "}", i + 1)
    ensures ParseValue(s, i) == Ok((Object(AnnotateMembers(members)), i + |SerializeMembers(members)| + 2))
    decreases members, 3
  {
    hide ParseValue, ParseArray, ParseObject, ParseItems, ParseMembers, ParseMemberValue, ParseString, ParseNumber, TextAt;
    MembersStart(members);
    TextIndex(s, SerializeMembers(members) + "}", i + 1, 0);
    ObjectOpen(s, i);
    ParseMembersAt(s, i + 1, members, []);
    AppendEmptyLeft(AnnotateMembers(members));
  }

  lemma MembersStart(members: seq<Member>)
    requires |members| > 0
    ensures (SerializeMembers(members) + "}")[0] == '"'
  {
  }

  /** The first member's text, then "}" or "," and the rest. */
  lemma MembersText(members: seq<Member>)
    requires |members| > 0
    ensures SerializeMembers(members) + "}" == MemberText(members[0])
      + (if |members| == 1 then "}" else "," + (SerializeMembers(members[1..]) + "}"))
    ensures |members| > 1 ==> |SerializeMembers(members)| == |MemberText(members[0])| + 1 + |SerializeMembers(members[1..])|
    ensures |members| == 1 ==> |SerializeMembers(members)| == |MemberText(members[0])|
  {
    var first := MemberText(members[0]);
    if |members| == 1 {
      AppendEmpty(first);
    } else {
      var rest := SerializeMembers(members[1..]);
      Assoc(first, "," + rest, "}");
      Assoc(",", rest, "}");
    }
  }

  /** A member's key, colon and value text. */
  lemma MemberTextParts(m: Member)
    ensures MemberText(m) == Quote(m.key) + (":" + Serialize(m.node.value))
    ensures |MemberText(m)| == |Quote(m.key)| + 1 + |Serialize(m.node.value)|
  {
    Assoc(Quote(m.key), ":", Serialize(m.node.value));
  }

  /** After a member's key: its colon and value, then the next state. */
  lemma MemberValueClose(s: string, j: nat, key: string, acc: seq<Member>, v: Value, m: nat)
    requires 0 < j && j + 1 < |s| && s[j] == ':' && !IsWs(s[j + 1]) && ParseValue(s, j + 1) == Ok((v, m))
    requires m < |s| && s[m] == '}'
    ensures ParseMemberValue(s, j, key, acc) == Ok((Object(acc + [Member(key, Node(s[j + 1..m], v))]), m + 1))
  {
    hide ParseValue, ParseString, ParseNumber, ParseArray, ParseObject, ParseMembers, ParseItems;
    assert SkipWs(s, j) == j;
    assert SkipWs(s, j + 1) == j + 1;
    assert SkipWs(s, m) == m;
  }

  lemma MemberValueNext(s: string, j: nat, key: string, acc: seq<Member>, v: Value, m: nat)
    requires 0 < j && j + 1 < |s| && s[j] == ':' && !IsWs(s[j + 1]) && ParseValue(s, j + 1) == Ok((v, m))
    requires m + 1 < |s| && s[m] == ',' && !IsWs(s[m + 1])
    ensures ParseMemberValue(s, j, key, acc) == ParseMembers(s, m + 1, acc + [Member(key, Node(s[j + 1..m], v))])
  {
    hide ParseValue, ParseString, ParseNumber, ParseArray, ParseObject, ParseMembers, ParseItems;
    assert SkipWs(s, j) == j;
    assert SkipWs(s, j + 1) == j + 1;
    assert SkipWs(s, m) == m;
    assert SkipWs(s, m + 1) == m + 1;
  }

  lemma MembersKey(s: string, i: nat, acc: seq<Member>, key: string, j: nat)
    requires 0 < i < |s| && s[i] == '"' && ParseString(s, i + 1, "") == Ok((key, j))
    ensures ParseMembers(s, i, acc) == ParseMemberValue(s, j, key, acc)
  {
  }

  /** A serialized member at `i`: its key is read, then its colon. */
  lemma MemberKeyPart(s: string, i: nat, key: string, v: Value, acc: seq<Member>)
    requires 0 < i && WellFormed(v) && TextAt(s, Quote(key) + (":" + Serialize(v)), i)
    ensures var j := i + |Quote(key)|;
      && ParseMembers(s, i, acc) == ParseMemberValue(s, j, key, acc)
      && j + 1 < |s| && s[j] == ':' && !IsWs(s[j + 1])
  {
    hide ParseValue, ParseArray, ParseObject, ParseItems, ParseMembers, ParseMemberValue, ParseString, ParseNumber, TextAt, Serialize;
    var q := Quote(key);
    var first := Serialize(v);
    TextSplit(s, q, ":" + first, i);
    SerializeStart(v);
    MemberColon(s, i + |q|, first);
    MemberKeyAt(s, i, key, acc);
  }

  /** A serialized member at `i`: its value is read back after the colon. */
  lemma {:induction false} MemberValuePart(s: string, i: nat, key: string, v: Value)
    requires WellFormed(v)
    requires TextAt(s, Quote(key) + (":" + Serialize(v)), i)
    requires Delimited(s, i + |Quote(key)| + 1 + |Serialize(v)|)
    ensures var l := i + |Quote(key)| + 1;
      && ParseValue(s, l) == Ok((Annotate(v), l + |Serialize(v)|))
      && s[l..l + |Serialize(v)|] == Serialize(v)
    decreases v, 1
  {
    hide ParseValue, ParseArray, ParseObject, ParseItems, ParseMembers, ParseMemberValue, ParseString, ParseNumber, TextAt, Quote;
    var q := Quote(key);
    var first := Serialize(v);
    TextSplit(s, q, ":" + first, i);
    SerializeStart(v);
    MemberColon(s, i + |q|, first);
    ParseValueAt(s, i + |q| + 1, v);
  }

  lemma MemberKeyAt(s: string, i: nat, key: string, acc: seq<Member>)
    requires 0 < i && TextAt(s, Quote(key), i)
    ensures ParseMembers(s, i, acc) == ParseMemberValue(s, i + |Quote(key)|, key, acc)
  {
    hide ParseValue, ParseString, ParseMemberValue, ParseMembers, TextAt;
    QuotedAt(s, i, key);
    MembersKey(s, i, acc, key, i + |Quote(key)|);
  }

  lemma MemberColon(s: string, j: nat, first: string)
    requires TextAt(s, ":" + first, j) && |first| > 0 && !IsWs(first[0])
    ensures j + 1 < |s| && s[j] == ':' && !IsWs(s[j + 1])
    ensures TextAt(s, first, j + 1) && s[j + 1..j + 1 + |first|] == first
  {
    TextSplit(s, ":", first, j);
    TextIndex(s, ":", j, 0);
    TextIndex(s, first, j + 1, 0);
    TextSlice(s, first, j + 1);
  }

  lemma {:induction false} ParseMembersAt(s: string, i: nat, members: seq<Member>, acc: seq<Member>)
    requires 0 < i && |members| > 0
    requires forall k :: 0 <= k < |members| ==> WellFormed(members[k].node.value)
    requires TextAt(s, SerializeMembers(members) + "}", i)
    ensures ParseMembers(s, i, acc) == Ok((Object(acc + AnnotateMembers(members)), i + |SerializeMembers(members)| + 1))
    decreases members, 2
  {
    if |members| == 1 {
      LastMemberAt(s, i, members, acc);
    } else {
      MoreMembersAt(s, i, members, acc);
    }
  }

  lemma {:induction false} LastMemberAt(s: string, i: nat, members: seq<Member>, acc: seq<Member>)
    requires 0 < i && |members| == 1 && WellFormed(members[0].node.value)
    requires TextAt(s, SerializeMembers(members) + "}", i)
    ensures ParseMembers(s, i, acc) == Ok((Object(acc + AnnotateMembers(members)), i + |SerializeMembers(members)| + 1))
    decreases members, 1
  {
    hide ParseValue, ParseArray, ParseObject, ParseItems, ParseMembers, ParseMemberValue, ParseString, ParseNumber;
    hide TextAt, Serialize, SerializeItems, SerializeMembers, MemberText, Quote, Annotate, WellFormed;
    var m0 := members[0];
    var j := i + |MemberText(m0)|;
    MembersText(members);
    TextSplit(s, MemberText(m0), "}", i);
    TextIndex(s, "}", j, 0);
    MemberTextParts(m0);
    MemberKeyPart(s, i, m0.key, m0.node.value, acc);
    MemberValuePart(s, i, m0.key, m0.node.value);
    MemberValueClose(s, i + |Quote(m0.key)|, m0.key, acc, Annotate(m0.node.value), j);
    FirstMember(members, acc);
  }

  lemma {:induction false} MoreMembersAt(s: string, i: nat, members: seq<Member>, acc: seq<Member>)
    requires 0 < i && |members| > 1
    requires forall k :: 0 <= k < |members| ==> WellFormed(members[k].node.value)
    requires TextAt(s, SerializeMembers(members) + "}", i)
    ensures ParseMembers(s, i, acc) == Ok((Object(acc + AnnotateMembers(members)), i + |SerializeMembers(members)| + 1))
    decreases members, 1
  {
    hide ParseValue, ParseArray, ParseObject, ParseItems, ParseMembers, ParseMemberValue, ParseString, ParseNumber;
    hide TextAt, Serialize, SerializeItems, SerializeMembers, MemberText, Quote, Annotate, WellFormed;
    var v := members[0].node.value;
    var m := Member(members[0].key, Node(Serialize(v), Annotate(v)));
    var j := i + |MemberText(members[0])|;
    MoreMembersParts(s, i, members, acc);
    RestMembersWellFormed(members);
    ParseMembersAt(s, j + 1, members[1..], acc + [m]);
    FirstMember(members, acc);
    MembersText(members);
  }

  /** The first member and the comma after it: what is left is the rest. */
  lemma {:induction false} MoreMembersParts(s: string, i: nat, members: seq<Member>, acc: seq<Member>)
    requires 0 < i && |members| > 1
    requires forall k :: 0 <= k < |members| ==> WellFormed(members[k].node.value)
    requires TextAt(s, SerializeMembers(members) + "}", i)
    ensures var v := members[0].node.value; var j := i + |MemberText(members[0])|;
      && ParseMembers(s, i, acc) == ParseMembers(s, j + 1, acc + [Member(members[0].key, Node(Serialize(v), Annotate(v)))])
      && TextAt(s, SerializeMembers(members[1..]) + "}", j + 1)
    decreases members, 0
  {
    hide ParseValue, ParseArray, ParseObject, ParseItems, ParseMembers, ParseMemberValue, ParseString, ParseNumber;
    hide TextAt, Serialize, SerializeItems, SerializeMembers, MemberText, Quote, Annotate, WellFormed;
    var m0 := members[0];
    var rest := members[1..];
    var tail := SerializeMembers(rest) + "}";
    var j := i + |MemberText(m0)|;
    MembersText(members);
    TextSplit(s, MemberText(m0), "," + tail, i);
    TextSplit(s, ",", tail, j);
    TextIndex(s, ",", j, 0);
    MembersStart(rest);
    TextIndex(s, tail, j + 1, 0);
    MemberTextParts(m0);
    MemberKeyPart(s, i, m0.key, m0.node.value, acc);
    MemberValuePart(s, i, m0.key, m0.node.value);
    MemberValueNext(s, i + |Quote(m0.key)|, m0.key, acc, Annotate(m0.node.value), j);
  }

  lemma RestMembersWellFormed(members: seq<Member>)
    requires |members| > 0 && forall k :: 0 <= k < |members| ==> WellFormed(members[k].node.value)
    ensures forall k :: 0 <= k < |members[1..]| ==> WellFormed(members[1..][k].node.value)
  {
    forall k | 0 <= k < |members[1..]| ensures WellFormed(members[1..][k].node.value) { assert members[1..][k] == members[k + 1]; }
  }

  /** How the member built for the first one joins the rest. */
  lemma FirstMember(members: seq<Member>, acc: seq<Member>)
    requires |members| > 0
    ensures var m := Member(members[0].key, Node(Serialize(members[0].node.value), Annotate(members[0].node.value)));
      && acc + [m] + AnnotateMembers(members[1..]) == acc + AnnotateMembers(members)
      && (|members| == 1 ==> acc + [m] == acc + AnnotateMembers(members))
  {
    var m := Member(members[0].key, Node(Serialize(members[0].node.value), Annotate(members[0].node.value)));
    var rest := AnnotateMembers(members[1..]);
    assert AnnotateMembers(members) == [m] + rest;
    Assoc(acc, [m], rest);
    if |members| == 1 {
      assert rest == [];
      AppendEmpty(acc + [m]);
    }
  }

  /** An integer literal followed by a delimiter is read as exactly itself. */
  lemma ParseIntLiteral(s: string, i: nat, lit: string)
    requires IntLiteral(lit) && TextAt(s, lit, i) && Delimited(s, i + |lit|)
    ensures ParseNumber(s, i) == Ok((Number(lit), i + |lit|))
  {
    var end := i + |lit|;
    TextSlice(s, lit, i);
    IntLiteralDigits(s, i, lit);
    var j := if s[i] == '-' then i + 1 else i;
    NumberOfDigits(s, i, j, end);
  }

  /** The characters of an integer literal in place: an optional sign, then
      digits with no leading zero. */
  lemma IntLiteralDigits(s: string, i: nat, lit: string)
    requires IntLiteral(lit) && i + |lit| <= |s| && s[i..i + |lit|] == lit
    ensures var j := if s[i] == '-' then i + 1 else i;
      && j < i + |lit| && (forall k :: j <= k < i + |lit| ==> IsDigit(s[k]))
      && (s[j] == '0' ==> j + 1 == i + |lit|)
  {
    var end := i + |lit|;
    assert forall k :: i <= k < end ==> s[k] == lit[k - i] by {
      forall k | i <= k < end ensures s[k] == lit[k - i] { assert s[i..end][k - i] == s[k]; }
    }
    var j := if s[i] == '-' then i + 1 else i;
    assert forall k :: j <= k < end ==> IsDigit(s[k]) by {
      forall k | j <= k < end ensures IsDigit(s[k]) {
        if lit[0] == '-' { assert lit[1..][k - i - 1] == lit[k - i]; }
      }
    }
    if s[j] == '0' && lit[0] == '-' {
      assert lit[1..][0] == lit[1];
    }
  }

  /** A run of digits up to a delimiter is a whole number. */
  lemma NumberOfDigits(s: string, i: nat, j: nat, end: nat)
    requires Delimited(s, end) && i <= j < end
    requires j == (if s[i] == '-' then i + 1 else i)
    requires forall k :: j <= k < end ==> IsDigit(s[k])
    requires s[j] == '0' ==> j + 1 == end
    ensures ParseNumber(s, i) == Ok((Number(s[i..end]), end))
  {
    if s[j] != '0' {
      DigitsEndAt(s, j, end);
    }
  }

  lemma {:induction false} DigitsEndAt(s: string, i: nat, end: nat)
    requires i <= end <= |s|
    requires forall k :: i <= k < end ==> IsDigit(s[k])
    requires end == |s| || !IsDigit(s[end])
    ensures DigitsEnd(s, i) == end
    decreases end - i
  {
    if i < end { DigitsEndAt(s, i + 1, end); }
  }

  lemma EscapeText(str: string)
    requires |str| > 0
    ensures Escape(str) + "\"" == EscapeChar(str[0]) + (Escape(str[1..]) + "\"")
    ensures |Escape(str)| == |EscapeChar(str[0])| + |Escape(str[1..])|
  {
  }

  /** One decoded step of a string body. */
  lemma ParseStringStep(s: string, i: nat, acc: string, c: char, w: nat)
    requires i < |s| && StepAt(s, i) == Decoded(c, w)
    ensures ParseString(s, i, acc) == ParseString(s, i + w, acc + [c])
  {
  }

  /** The closing quote of a string body. */
  lemma ParseStringClose(s: string, i: nat, acc: string)
    requires i < |s| && s[i] == '"'
    ensures ParseString(s, i, acc) == Ok((acc, i + 1))
  {
  }

  /** Reading an escaped string body back, one character at a time. */
  lemma {:induction false} ParseEscaped(s: string, i: nat, str: string, acc: string)
    requires TextAt(s, Escape(str) + "\"", i)
    ensures ParseString(s, i, acc) == Ok((acc + str, i + |Escape(str)| + 1))
    decreases |str|, 1
  {
    if |str| == 0 {
      assert Escape(str) + "\"" == "\"";
      TextIndex(s, "\"", i, 0);
      ParseStringClose(s, i, acc);
      AppendEmpty(acc);
    } else {
      ParseEscapedFirst(s, i, str, acc);
    }
  }

  lemma {:induction false} ParseEscapedFirst(s: string, i: nat, str: string, acc: string)
    requires |str| > 0 && TextAt(s, Escape(str) + "\"", i)
    ensures ParseString(s, i, acc) == Ok((acc + str, i + |Escape(str)| + 1))
    decreases |str|, 0
  {
    hide ParseString, StepAt, EscapeAt, Escape, EscapeChar;
    var e := EscapeChar(str[0]);
    EscapeText(str);
    TextSplit(s, e, Escape(str[1..]) + "\"", i);
    EscapedStep(s, i, str[0]);
    ParseStringStep(s, i, acc, str[0], |e|);
    ParseEscaped(s, i + |e|, str[1..], acc + [str[0]]);
    AppendStep(acc, str);
  }

  /** Each escaped character is read back as one step of its own width. */
  lemma EscapedStep(s: string, i: nat, c: char)
    requires TextAt(s, EscapeChar(c), i)
    ensures StepAt(s, i) == Decoded(c, |EscapeChar(c)|)
  {
    var e := EscapeChar(c);
    TextIndex(s, e, i, 0);
    if |e| == 2 {
      TextIndex(s, e, i, 1);
    } else if |e| == 6 {
      UnicodeStep(s, i, c);
    }
  }

  lemma UnicodeStep(s: string, i: nat, c: char)
    requires |EscapeChar(c)| == 6 && TextAt(s, EscapeChar(c), i)
    ensures EscapeAt(s, i) == Decoded(c, 6)
  {
    var e := EscapeChar(c);
    var u := c as int;
    forall k | 0 <= k < 6 ensures s[i + k] == e[k] { TextIndex(s, e, i, k); }
    UnicodeDigits(c);
    assert Hex4(s, i + 2) == Some(u) by {
      HexDigitValue(e[2]);
      HexDigitValue(e[3]);
      HexDigitValue(e[4]);
      HexDigitValue(e[5]);
    }
  }

  /** The four digits of a \u escape spell the character's code. */
  lemma UnicodeDigits(c: char)
    requires |EscapeChar(c)| == 6
    ensures var e := EscapeChar(c);
      e[0] == '\\' && e[1] == 'u'
      && (forall k :: 2 <= k < 6 ==> '0' <= e[k] <= '9' || 'a' <= e[k] <= 'f')
      && ((Digit16(e[2]) * 16 + Digit16(e[3])) * 16 + Digit16(e[4])) * 16 + Digit16(e[5]) == c as int
  {
    if c as int < 0x2028 {
      ByteEscapeDigits(c);
    } else {
      SeparatorDigits(c);
    }
  }

  lemma ByteEscapeDigits(c: char)
    requires |EscapeChar(c)| == 6 && c as int < 0x2028
    ensures var e := EscapeChar(c);
      e[0] == '\\' && e[1] == 'u'
      && (forall k :: 2 <= k < 6 ==> '0' <= e[k] <= '9' || 'a' <= e[k] <= 'f')
      && ((Digit16(e[2]) * 16 + Digit16(e[3])) * 16 + Digit16(e[4])) * 16 + Digit16(e[5]) == c as int
  {
    var u := c as int;
    var e := EscapeChar(c);
    assert e == "\\u00" + [Hex.Digit(u / 16), Hex.Digit(u % 16)];
    assert e[2] == '0' && e[3] == '0' && e[4] == Hex.Digit(u / 16) && e[5] == Hex.Digit(u % 16);
    DigitBack(u / 16);
    DigitBack(u % 16);
  }

  lemma SeparatorDigits(c: char)
    requires |EscapeChar(c)| == 6 && c as int >= 0x2028
    ensures var e := EscapeChar(c);
      e[0] == '\\' && e[1] == 'u'
      && (forall k :: 2 <= k < 6 ==> '0' <= e[k] <= '9' || 'a' <= e[k] <= 'f')
      && ((Digit16(e[2]) * 16 + Digit16(e[3])) * 16 + Digit16(e[4])) * 16 + Digit16(e[5]) == c as int
  {
    var u := c as int;
    var e := EscapeChar(c);
    assert e == "\\u202" + [Hex.Digit(u % 16)];
    assert e[2] == '2' && e[3] == '0' && e[4] == '2' && e[5] == Hex.Digit(u % 16);
    DigitBack(u % 16);
  }

  lemma DigitBack(d: int)
    requires 0 <= d < 16
    ensures Digit16(Hex.Digit(d)) == d
  {
  }

  /** The value of a lower-case hex digit. */
  function Digit16(c: char): int
  {
    if '0' <= c <= '9' then c as int - '0' as int
    else if 'a' <= c <= 'f' then c as int - 'a' as int + 10
    else 0
  }

  lemma HexDigitValue(c: char)
    requires '0' <= c <= '9' || 'a' <= c <= 'f'
    ensures HexValue(c) == Some(Digit16(c))
  {
  }
}

/** Go's `url.Values` (a key -> list-of-values multimap) together with
    `Values.Set`, `Values.Get`, `Values.Encode`, `url.QueryEscape`,
    `url.QueryUnescape` and `url.ParseQuery`: the
    application/x-www-form-urlencoded format that every parameter codec of the
    library feeds.

    Encode visits the keys in sorted order, so the multimap is represented here
    as an association list kept sorted by key: sortedness is an invariant that
    Set preserves, and Encode is a left-to-right walk. */
module UrlValues {
  import opened Base
  import Utf8

  // ---------------------------------------------------------------------
  // Key order: sort.Strings compares strings byte-wise; on UTF-8 that is the
  // code-point order used here.

  predicate Less(a: string, b: string)
    decreases |a|
  {
    |b| > 0 && (|a| == 0 || a[0] < b[0] || (a[0] == b[0] && Less(a[1..], b[1..])))
  }

  lemma {:induction false} LessIrreflexive(a: string)
    ensures !Less(a, a)
    decreases |a|
  {
    if |a| > 0 {
      LessIrreflexive(a[1..]);
    }
  }

  lemma {:induction false} LessTransitive(a: string, b: string, c: string)
    requires Less(a, b) && Less(b, c)
    ensures Less(a, c)
    decreases |a|
  {
    if |a| > 0 && a[0] == b[0] && b[0] == c[0] {
      LessTransitive(a[1..], b[1..], c[1..]);
    }
  }

  lemma {:induction false} LessTotal(a: string, b: string)
    requires a != b
    ensures Less(a, b) || Less(b, a)
    decreases |a|
  {
    if |a| > 0 && |b| > 0 && a[0] == b[0] {
      assert a == [a[0]] + a[1..] && b == [b[0]] + b[1..];
      LessTotal(a[1..], b[1..]);
    }
  }

  // ---------------------------------------------------------------------
  // The multimap

  datatype Entry = Entry(key: string, vals: seq<string>)

  /** Keys strictly increasing, hence distinct. */
  ghost predicate Sorted(vs: seq<Entry>)
  {
    forall i, j :: 0 <= i < j < |vs| ==> Less(vs[i].key, vs[j].key)
  }

  /** The values stored under `k` (Go: `v[k]` with its presence flag). */
  function Lookup(vs: seq<Entry>, k: string): (r: Option<seq<string>>)
    ensures r.None? <==> forall i :: 0 <= i < |vs| ==> vs[i].key != k
    decreases |vs|
  {
    if |vs| == 0 then None
    else if vs[0].key == k then Some(vs[0].vals)
    else Lookup(vs[1..], k)
  }

  /** Values.Get: the first value under `k`, or "". */
  function Get(vs: seq<Entry>, k: string): string
  {
    match Lookup(vs, k)
    case Some(l) => if |l| == 0 then "" else l[0]
    case None => ""
  }

  /** Values.Set: `k` now holds exactly `[v]`; every other key is untouched. */
  function Set(vs: seq<Entry>, k: string, v: string): (r: seq<Entry>)
    requires Sorted(vs)
    ensures Sorted(r)
    ensures Lookup(r, k) == Some([v])
    ensures forall k' :: k' != k ==> Lookup(r, k') == Lookup(vs, k')
    ensures forall i :: 0 <= i < |r| ==> r[i].key == k || r[i] in vs
    decreases |vs|
  {
    if |vs| == 0 then [Entry(k, [v])]
    else if vs[0].key == k then
      assert forall i :: 1 <= i < |vs| ==> Less(vs[0].key, vs[i].key);
      [Entry(k, [v])] + vs[1..]
    else if Less(k, vs[0].key) then
      assert forall i :: 0 <= i < |vs| ==> Less(k, vs[i].key) by {
        forall i | 0 <= i < |vs| ensures Less(k, vs[i].key) {
          if i > 0 { LessTransitive(k, vs[0].key, vs[i].key); }
        }
      }
      [Entry(k, [v])] + vs
    else
      LessTotal(k, vs[0].key);
      var rest := Set(vs[1..], k, v);
      assert forall i :: 0 <= i < |rest| ==> Less(vs[0].key, rest[i].key) by {
        forall i | 0 <= i < |rest| ensures Less(vs[0].key, rest[i].key) {
          if rest[i].key != k {
            var j :| 0 <= j < |vs[1..]| && vs[1..][j] == rest[i];
            assert vs[j + 1] == rest[i];
          }
        }
      }
      [vs[0]] + rest
  }

  // ---------------------------------------------------------------------
  // url.QueryEscape

  predicate Unreserved(b: Byte)
  {
    ('a' as int <= b <= 'z' as int) || ('A' as int <= b <= 'Z' as int) || ('0' as int <= b <= '9' as int)
    || b == '-' as int || b == '_' as int || b == '.' as int || b == '~' as int
  }

  /** The upper-case hex digit of `d` (Go indexes "0123456789ABCDEF"). */
  function UpperHex(d: int): (c: char)
    requires 0 <= d < 16
    ensures ('0' <= c <= '9') || ('A' <= c <= 'F')
  {
    if d < 10 then ('0' as int + d) as char else ('A' as int + d - 10) as char
  }

  /** One byte as it appears in a query component. */
  function EscapeByte(b: Byte): (s: string)
    ensures |s| > 0 && Utf8.AllAscii(s)
    ensures '&' !in s && '=' !in s && ';' !in s
  {
    if Unreserved(b) then [b as char]
    else if b == ' ' as int then "+"
    else ['%', UpperHex(b / 16), UpperHex(b % 16)]
  }

  function EscapeBytes(bs: seq<Byte>): (s: string)
    ensures Utf8.AllAscii(s)
    ensures '&' !in s && '=' !in s && ';' !in s
    decreases |bs|
  {
    if |bs| == 0 then "" else EscapeByte(bs[0]) + EscapeBytes(bs[1..])
  }

  /** url.QueryEscape: percent-encodes the UTF-8 bytes of `s`, leaving the
      RFC 3986 unreserved characters alone and writing space as '+'. */
  function QueryEscape(s: string): string
  {
    EscapeBytes(Utf8.Encode(s))
  }

  // ---------------------------------------------------------------------
  // url.QueryUnescape

  datatype UrlError = InvalidEscape(escape: string) | SemicolonSeparator

  predicate IsHex(c: char)
  {
    ('0' <= c <= '9') || ('a' <= c <= 'f') || ('A' <= c <= 'F')
  }

  function Unhex(c: char): (d: int)
    requires IsHex(c)
    ensures 0 <= d < 16
  {
    if '0' <= c <= '9' then c as int - '0' as int
    else if 'a' <= c <= 'f' then c as int - 'a' as int + 10
    else c as int - 'A' as int + 10
  }

  function QueryUnescape(s: string): Result<seq<Byte>, UrlError>
    decreases |s|
  {
    if |s| == 0 then Ok([])
    else if s[0] == '%' then
      if |s| >= 3 && IsHex(s[1]) && IsHex(s[2]) then
        var rest :- QueryUnescape(s[3..]);
        Ok([Unhex(s[1]) * 16 + Unhex(s[2])] + rest)
      else Err(InvalidEscape(if |s| > 3 then s[..3] else s))
    else if s[0] == '+' then
      var rest :- QueryUnescape(s[1..]);
      Ok([' ' as int] + rest)
    else
      var rest :- QueryUnescape(s[1..]);
      Ok(Utf8.EncodeChar(s[0]) + rest)
  }

  lemma UnescapeAppendByte(b: Byte, rest: string)
    ensures QueryUnescape(EscapeByte(b) + rest) ==
      (match QueryUnescape(rest)
       case Ok(r) => Ok([b] + r)
       case Err(e) => Err(e))
  {
    if Unreserved(b) {
      UnescapeUnreserved(b, rest);
    } else if b == ' ' as int {
      UnescapeSpace(rest);
    } else {
      UnescapePercent(b, rest);
    }
  }

  lemma UnescapeUnreserved(b: Byte, rest: string)
    requires Unreserved(b)
    ensures QueryUnescape([b as char] + rest) ==
      (match QueryUnescape(rest)
       case Ok(r) => Ok([b] + r)
       case Err(e) => Err(e))
  {
    var s := [b as char] + rest;
    assert s[0] == b as char;
    assert s[1..] == rest;
  }

  lemma UnescapeSpace(rest: string)
    ensures QueryUnescape("+" + rest) ==
      (match QueryUnescape(rest)
       case Ok(r) => Ok([' ' as int] + r)
       case Err(e) => Err(e))
  {
    var s := "+" + rest;
    assert s[0] == '+';
    assert s[1..] == rest;
  }

  lemma UnescapePercent(b: Byte, rest: string)
    ensures QueryUnescape(['%', UpperHex(b / 16), UpperHex(b % 16)] + rest) ==
      (match QueryUnescape(rest)
       case Ok(r) => Ok([b] + r)
       case Err(e) => Err(e))
  {
    var s := ['%', UpperHex(b / 16), UpperHex(b % 16)] + rest;
    assert s[0] == '%' && s[1] == UpperHex(b / 16) && s[2] == UpperHex(b % 16);
    assert s[3..] == rest;
    assert Unhex(UpperHex(b / 16)) == b / 16;
    assert Unhex(UpperHex(b % 16)) == b % 16;
  }

  /** QueryUnescape undoes the byte-level escaping. */
  lemma {:induction false} UnescapeEscapeBytes(bs: seq<Byte>)
    ensures QueryUnescape(EscapeBytes(bs)) == Ok(bs)
    decreases |bs|
  {
    if |bs| > 0 {
      UnescapeEscapeBytes(bs[1..]);
      UnescapeAppendByte(bs[0], EscapeBytes(bs[1..]));
      assert [bs[0]] + bs[1..] == bs;
    }
  }

  /** Round trip of one query component: QueryUnescape(QueryEscape(s)) gives
      back the UTF-8 bytes of `s`. */
  lemma QueryEscapeRoundTrip(s: string)
    ensures QueryUnescape(QueryEscape(s)) == Ok(Utf8.Encode(s))
  {
    UnescapeEscapeBytes(Utf8.Encode(s));
  }

  // ---------------------------------------------------------------------
  // Values.Encode

  /** The (key, value) pairs in the order Encode writes them. */
  function Pairs(vs: seq<Entry>): (ps: seq<(string, string)>)
    ensures forall i :: 0 <= i < |ps| ==> exists j :: 0 <= j < |vs| && ps[i].0 == vs[j].key
    decreases |vs|
  {
    if |vs| == 0 then []
    else
      var head := seq(|vs[0].vals|, i requires 0 <= i < |vs[0].vals| => (vs[0].key, vs[0].vals[i]));
      var tail := Pairs(vs[1..]);
      assert forall i :: 0 <= i < |tail| ==> exists j :: 0 <= j < |vs| && tail[i].0 == vs[j].key by {
        forall i | 0 <= i < |tail| ensures exists j :: 0 <= j < |vs| && tail[i].0 == vs[j].key {
          var j :| 0 <= j < |vs[1..]| && tail[i].0 == vs[1..][j].key;
          assert tail[i].0 == vs[j + 1].key;
        }
      }
      head + tail
  }

  function PairText(p: (string, string)): (s: string)
    ensures |s| > 0 && '&' !in s
  {
    QueryEscape(p.0) + "=" + QueryEscape(p.1)
  }

  function PairTexts(ps: seq<(string, string)>): (ts: seq<string>)
    ensures |ts| == |ps|
    ensures forall i :: 0 <= i < |ps| ==> ts[i] == PairText(ps[i])
  {
    seq(|ps|, i requires 0 <= i < |ps| => PairText(ps[i]))
  }

  /** Values.Encode: "k1=v1&k1=v2&k2=v3…" with keys in sorted order. */
  function Encode(vs: seq<Entry>): string
  {
    Join(PairTexts(Pairs(vs)), '&')
  }

  /** Encode gives "" exactly when there is no (key, value) pair to write. */
  lemma EncodeEmptyIff(vs: seq<Entry>)
    ensures Encode(vs) == "" <==> Pairs(vs) == []
  {
    var ts := PairTexts(Pairs(vs));
    if |ts| > 0 {
      assert |ts[0]| > 0;
      if |ts| == 1 {
        assert Encode(vs) == ts[0];
      } else {
        assert |Encode(vs)| >= |ts[0]|;
      }
    }
  }

  /** The pairs Encode writes are grouped and ordered by key. */
  lemma {:induction false} PairsSorted(vs: seq<Entry>)
    requires Sorted(vs)
    ensures forall i, j :: 0 <= i < j < |Pairs(vs)| ==>
      Pairs(vs)[i].0 == Pairs(vs)[j].0 || Less(Pairs(vs)[i].0, Pairs(vs)[j].0)
    decreases |vs|
  {
    if |vs| > 0 {
      var ps := Pairs(vs);
      var n := |vs[0].vals|;
      var tail := Pairs(vs[1..]);
      assert Sorted(vs[1..]);
      PairsSorted(vs[1..]);
      assert ps[n..] == tail;
      forall i, j | 0 <= i < j < |ps|
        ensures ps[i].0 == ps[j].0 || Less(ps[i].0, ps[j].0)
      {
        if i < n && j >= n {
          assert ps[i].0 == vs[0].key;
          assert ps[j] == tail[j - n];
          var k :| 0 <= k < |vs[1..]| && tail[j - n].0 == vs[1..][k].key;
          assert Less(vs[0].key, vs[k + 1].key);
        } else if i >= n {
          assert ps[i] == tail[i - n] && ps[j] == tail[j - n];
        }
      }
    }
  }

  // ---------------------------------------------------------------------
  // url.ParseQuery, the partner of Encode

  /** The segments of a query, left to right, with Go's error bookkeeping: a
      segment holding ';' always records the semicolon error; an unescape
      error is recorded only when no error was recorded before. */
  function ParseSegments(segs: seq<string>, err: Option<UrlError>)
    : (seq<(seq<Byte>, seq<Byte>)>, Option<UrlError>)
    decreases |segs|
  {
    if |segs| == 0 then ([], err)
    else
      var s := segs[0];
      if ';' in s then ParseSegments(segs[1..], Some(SemicolonSeparator))
      else if s == "" then ParseSegments(segs[1..], err)
      else
        var (k, v) := Cut(s, '=');
        match (QueryUnescape(k), QueryUnescape(v))
        case (Ok(kb), Ok(vb)) =>
          var (ps, e) := ParseSegments(segs[1..], err);
          ([(kb, vb)] + ps, e)
        case (Err(e), _) => ParseSegments(segs[1..], if err.None? then Some(e) else err)
        case (_, Err(e)) => ParseSegments(segs[1..], if err.None? then Some(e) else err)
  }

  /** url.ParseQuery: the decoded (key, value) pairs in order of appearance
      (grouping them by key gives the url.Values), and the error to report. */
  function ParseQuery(q: string): (seq<(seq<Byte>, seq<Byte>)>, Option<UrlError>)
  {
    ParseSegments(Split(q, '&'), None)
  }

  function BytePairs(ps: seq<(string, string)>): (bs: seq<(seq<Byte>, seq<Byte>)>)
    ensures |bs| == |ps|
    ensures forall i :: 0 <= i < |ps| ==> bs[i] == (Utf8.Encode(ps[i].0), Utf8.Encode(ps[i].1))
  {
    seq(|ps|, i requires 0 <= i < |ps| => (Utf8.Encode(ps[i].0), Utf8.Encode(ps[i].1)))
  }

  lemma {:induction false} ParsePairTexts(ps: seq<(string, string)>)
    ensures ParseSegments(PairTexts(ps), None) == (BytePairs(ps), None)
    decreases |ps|
  {
    if |ps| > 0 {
      var ts := PairTexts(ps);
      var p := ps[0];
      var s := ts[0];
      assert s == QueryEscape(p.0) + "=" + QueryEscape(p.1);
      assert ';' !in s;
      IndexAfter(QueryEscape(p.0), '=', QueryEscape(p.1));
      assert s[..|QueryEscape(p.0)|] == QueryEscape(p.0);
      assert s[|QueryEscape(p.0)| + 1..] == QueryEscape(p.1);
      assert Cut(s, '=') == (QueryEscape(p.0), QueryEscape(p.1));
      QueryEscapeRoundTrip(p.0);
      QueryEscapeRoundTrip(p.1);
      assert ts[1..] == PairTexts(ps[1..]);
      ParsePairTexts(ps[1..]);
      assert BytePairs(ps) == [(Utf8.Encode(p.0), Utf8.Encode(p.1))] + BytePairs(ps[1..]);
    }
  }

  /** ParseQuery(Encode(vs)) recovers, without error, every (key, value) pair
      of `vs` in Encode's order, as the UTF-8 bytes of the originals. */
  lemma EncodeParseRoundTrip(vs: seq<Entry>)
    ensures ParseQuery(Encode(vs)) == (BytePairs(Pairs(vs)), None)
  {
    var ts := PairTexts(Pairs(vs));
    if |ts| == 0 {
      assert Encode(vs) == "";
      assert Split("", '&') == [""];
    } else {
      SplitJoin(ts, '&');
      ParsePairTexts(Pairs(vs));
    }
  }

  // ---------------------------------------------------------------------
  // Building a Values from the entries a codec decided to write

  /** Applies Values.Set for each (key, value) in order, starting from the
      empty Values. */
  function Build(acc: seq<Entry>, sets: seq<(string, string)>): (r: seq<Entry>)
    requires Sorted(acc)
    ensures Sorted(r)
    decreases |sets|
  {
    if |sets| == 0 then acc else Build(Set(acc, sets[0].0, sets[0].1), sets[1..])
  }

  /** The value of the last step of `sets` that writes `k`, if any. */
  function LastSet(sets: seq<(string, string)>, k: string): (r: Option<string>)
    ensures r.None? <==> forall i :: 0 <= i < |sets| ==> sets[i].0 != k
    ensures r.Some? ==> (k, r.value) in sets
    decreases |sets|
  {
    if |sets| == 0 then None
    else if sets[|sets| - 1].0 == k then Some(sets[|sets| - 1].1)
    else LastSet(sets[..|sets| - 1], k)
  }

  /** Build is "last write wins": a key ends up holding exactly the value of
      the last step that sets it, and keeps its old values if no step does. */
  lemma {:induction false} BuildLookup(acc: seq<Entry>, sets: seq<(string, string)>, k: string)
    requires Sorted(acc)
    ensures Lookup(Build(acc, sets), k) ==
      (match LastSet(sets, k) case Some(v) => Some([v]) case None => Lookup(acc, k))
    decreases |sets|
  {
    if |sets| > 0 {
      var acc' := Set(acc, sets[0].0, sets[0].1);
      BuildLookup(acc', sets[1..], k);
      LastSetCons(sets, k);
    }
  }

  lemma {:induction false} LastSetCons(sets: seq<(string, string)>, k: string)
    requires |sets| > 0
    ensures LastSet(sets, k) ==
      (if LastSet(sets[1..], k).Some? then LastSet(sets[1..], k)
       else if sets[0].0 == k then Some(sets[0].1) else None)
    decreases |sets|
  {
    if |sets| > 1 {
      assert sets[1..][..|sets[1..]| - 1] == sets[..|sets| - 1][1..];
      if sets[|sets| - 1].0 != k {
        LastSetCons(sets[..|sets| - 1], k);
      }
    }
  }

  // ---------------------------------------------------------------------
  // QueryString: what every codec revision prepends to a request URL

  /** "" when nothing is encoded, otherwise '?' followed by the encoding. */
  function QueryStringOf(vs: seq<Entry>): (q: string)
    ensures q == "" <==> Pairs(vs) == []
    ensures q != "" ==> q[0] == '?'
  {
    EncodeEmptyIff(vs);
    var encoded := Encode(vs);
    if encoded == "" then "" else "?" + encoded
  }

  /** Dropping the '?' and parsing recovers every pair in Encode's order. */
  lemma QueryStringRoundTrip(vs: seq<Entry>)
    requires QueryStringOf(vs) != ""
    ensures ParseQuery(QueryStringOf(vs)[1..]) == (BytePairs(Pairs(vs)), None)
  {
    assert QueryStringOf(vs)[1..] == Encode(vs);
    EncodeParseRoundTrip(vs);
  }
}

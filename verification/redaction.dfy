/** The scrubbing of secrets from a request body before it is shown to a
    hook or a log: redactBodyValues (ciolite/request.go) and the copy inside
    logRequest (cioutil/request.go). Both copy the body values and then, for
    each of four keys in turn, replace a non-empty first value with a stand-in
    computed from it; they differ only in the stand-in. Dafny values are
    immutable, so the caller's map is untouched by construction. */
module Redaction {
  import opened Base
  import opened UrlValues

  const SensitiveKeys := ["password", "provider_refresh_token", "provider_consumer_key", "provider_consumer_secret"]

  predicate Sensitive(k: string)
  {
    k == SensitiveKeys[0] || k == SensitiveKeys[1] || k == SensitiveKeys[2] || k == SensitiveKeys[3]
  }

  /** One step: `if val := v.Get(k); len(val) > 0 { v.Set(k, standIn(val)) }`. */
  function RedactKey(vs: seq<Entry>, k: string, standIn: string -> string): (r: seq<Entry>)
    requires Sorted(vs)
    ensures Sorted(r)
    ensures Lookup(r, k) == if Get(vs, k) != "" then Some([standIn(Get(vs, k))]) else Lookup(vs, k)
    ensures forall k' :: k' != k ==> Lookup(r, k') == Lookup(vs, k')
  {
    var val := Get(vs, k);
    if |val| > 0 then Set(vs, k, standIn(val)) else vs
  }

  /** The four steps in the order of the source. */
  function Redact(vs: seq<Entry>, standIn: string -> string): (r: seq<Entry>)
    requires Sorted(vs)
    ensures Sorted(r)
  {
    var r1 := RedactKey(vs, SensitiveKeys[0], standIn);
    var r2 := RedactKey(r1, SensitiveKeys[1], standIn);
    var r3 := RedactKey(r2, SensitiveKeys[2], standIn);
    RedactKey(r3, SensitiveKeys[3], standIn)
  }

  /** Redact key by key: a sensitive key with a non-empty first value now
      holds just the stand-in for that value; every other key, and a
      sensitive key whose first value is empty, keeps what it had. */
  lemma RedactLookup(vs: seq<Entry>, standIn: string -> string, k: string)
    requires Sorted(vs)
    ensures Lookup(Redact(vs, standIn), k) ==
      if Sensitive(k) && Get(vs, k) != "" then Some([standIn(Get(vs, k))]) else Lookup(vs, k)
  {
    var k0, k1, k2, k3 := SensitiveKeys[0], SensitiveKeys[1], SensitiveKeys[2], SensitiveKeys[3];
    assert |k0| == 8 && |k1| == 22 && |k2| == 21 && |k3| == 24;
    var r1 := RedactKey(vs, k0, standIn);
    var r2 := RedactKey(r1, k1, standIn);
    var r3 := RedactKey(r2, k2, standIn);
    hide RedactKey, Set, Lookup, Get;
    SameGet(r3, vs, k3);
    SameGet(r2, vs, k2);
    SameGet(r1, vs, k1);
    if k == k0 {
      assert Lookup(Redact(vs, standIn), k) == Lookup(r1, k);
    } else if k == k1 {
      assert Lookup(Redact(vs, standIn), k) == Lookup(r2, k);
    } else if k == k2 {
      assert Lookup(Redact(vs, standIn), k) == Lookup(r3, k);
    } else if k != k3 {
      assert !Sensitive(k);
    }
  }

  lemma SameGet(a: seq<Entry>, b: seq<Entry>, k: string)
    ensures Lookup(a, k) == Lookup(b, k) ==> Get(a, k) == Get(b, k)
  {
  }

  /** Only the first value is inspected: a sensitive key whose first value
      is empty keeps all its values, later ones included. */
  lemma FirstValueOnly(vs: seq<Entry>, standIn: string -> string, k: string, later: seq<string>)
    requires Sorted(vs) && Sensitive(k) && Lookup(vs, k) == Some([""] + later)
    ensures Lookup(Redact(vs, standIn), k) == Some([""] + later)
  {
    RedactLookup(vs, standIn, k);
  }
}

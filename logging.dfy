/** `sanitizeBody` of the logging interceptor: the request body as it is logged, with the
    credentials it may carry redacted. The log lines themselves are left out. */
module Logging {
  import opened Text
  import opened Json

  const SensitiveFields: seq<string> := ["password", "token", "secret", "apiKey"]

  const Redacted := "***REDACTED***"

  lemma NatStringsDistinct()
    ensures forall m: nat, n: nat :: NatString(m) == NatString(n) ==> m == n
  {
    forall m: nat, n: nat | NatString(m) == NatString(n) ensures m == n {
      NatStringInjective(m, n);
    }
  }

  /** `{ ...v }`: an object's own properties; an array's elements and a string's characters
      under their indices; nothing for any other value. */
  function Spread(v: Value): Doc
  {
    match v
    case Obj(fields) => fields
    case Arr(items) =>
      NatStringsDistinct();
      map i: nat | i < |items| :: NatString(i) := items[i]
    case Str(s) =>
      NatStringsDistinct();
      map i: nat | i < |s| :: NatString(i) := Str([s[i]])
    case _ => map[]
  }

  /** The value `sanitizeBody` logs for a property of the copy. */
  function Redact(key: string, value: Value): Value
  {
    if key in SensitiveFields && Truthy(value) then Str(Redacted) else value
  }

  /** What `sanitizeBody(body)` returns: a falsy body as it is, otherwise a copy in which
      every truthy credential is replaced by the redaction marker. */
  function Sanitized(body: Value): Value
  {
    if !Truthy(body) then body
    else
      var copy := Spread(body);
      Obj(map k | k in copy :: Redact(k, copy[k]))
  }

  /** `sanitizeBody(body)`: copies the body, then overwrites the credentials one by one. */
  method SanitizeBody(body: Value) returns (r: Value)
    ensures r == Sanitized(body)
  {
    if !Truthy(body) {
      return body;
    }
    var sanitized := Spread(body);
    for i := 0 to |SensitiveFields|
      invariant sanitized.Keys == Spread(body).Keys
      invariant forall k :: k in sanitized ==>
        sanitized[k] == if k in SensitiveFields[..i] && Truthy(Spread(body)[k]) then Str(Redacted) else Spread(body)[k]
    {
      var field := SensitiveFields[i];
      assert SensitiveFields[..i + 1] == SensitiveFields[..i] + [field];
      if field in sanitized && Truthy(sanitized[field]) {
        sanitized := sanitized[field := Str(Redacted)];
      }
    }
    assert SensitiveFields[..|SensitiveFields|] == SensitiveFields;
    var copy := Spread(body);
    assert sanitized == map k | k in copy :: Redact(k, copy[k]);
    return Obj(sanitized);
  }

  // ---------------------------------------------------------------- what the redaction promises

  /** A truthy body becomes an object with the same property names as its copy; each
      credential with a truthy value is redacted and every other property keeps its value. */
  lemma SanitizedShape(body: Value)
    requires Truthy(body)
    ensures var r := Sanitized(body);
      && r.Obj? && r.fields.Keys == Spread(body).Keys
      && (forall k :: k in r.fields && k in SensitiveFields && Truthy(Spread(body)[k]) ==> r.fields[k] == Str(Redacted))
      && (forall k :: k in r.fields && !(k in SensitiveFields && Truthy(Spread(body)[k])) ==> r.fields[k] == Spread(body)[k])
    ensures body.Obj? ==> Sanitized(body).fields.Keys == body.fields.Keys
  {
  }

  /** A falsy body is logged as it is. */
  lemma FalsyBodyUnchanged(body: Value)
    requires !Truthy(body)
    ensures Sanitized(body) == body
  {
  }

  /** Sanitizing a sanitized body changes nothing. */
  lemma SanitizeIdempotent(body: Value)
    ensures Sanitized(Sanitized(body)) == Sanitized(body)
  {
    if Truthy(body) {
      var copy := Spread(body);
      var once := map k | k in copy :: Redact(k, copy[k]);
      assert Spread(Obj(once)) == once;
      forall k | k in once ensures Redact(k, once[k]) == once[k] {
      }
      assert (map k | k in once :: Redact(k, once[k])) == once;
    }
  }
}

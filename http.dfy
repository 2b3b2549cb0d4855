/** Request/response vocabulary shared by the route handlers. */
module Http {

  /** An optional value: an absent JSON field, header or environment variable is `None`. */
  datatype Option<+T> = None | Some(value: T)

  /** A route's answer: a JSON body on success, or an HTTP status with its `error` text. */
  datatype Reply<+T> = Ok(value: T) | Err(status: nat, error: string)

  /** JavaScript truthiness of an optional string: absent and "" are falsy. */
  predicate Truthy(s: Option<string>) {
    s.Some? && s.value != ""
  }

  /** `s || fallback` on an optional string. */
  function Or(s: Option<string>, fallback: string): (r: string)
    ensures Truthy(s) ==> r == s.value
    ensures !Truthy(s) ==> r == fallback
  {
    if Truthy(s) then s.value else fallback
  }

  /**
   * The shared-secret header gate, written in the source either as
   * `!given || given !== expected` or as `!expected || given !== expected`:
   * both reject exactly when the two differ or the key is empty or missing.
   */
  predicate KeyAccepted(given: Option<string>, expected: Option<string>) {
    Truthy(given) && given == expected
  }

  /** An unset or empty secret admits nobody, whatever header is sent. */
  lemma UnsetSecretAdmitsNobody(given: Option<string>, expected: Option<string>)
    requires !Truthy(expected)
    ensures !KeyAccepted(given, expected)
  {
  }

  /** Both spellings of the gate in the source decide the same way. */
  lemma GateSpellingsAgree(given: Option<string>, expected: Option<string>)
    ensures KeyAccepted(given, expected) <==> !(!Truthy(given) || given != expected)
    ensures KeyAccepted(given, expected) <==> !(!Truthy(expected) || given != expected)
  {
  }
}

/** Values as the route handlers and callbacks see them. A field of a parsed
    JSON body, of a token or of a session may be missing (`undefined` or
    `null`), and the handlers test fields with JavaScript's `!` and `||`,
    which look at truthiness rather than presence. */
module Values {

  /** A possibly missing value: `None` stands for both `undefined` and `null`. */
  datatype Option<+T> = None | Some(value: T)

  /** The outcome of a callback that either returns a value or throws. */
  datatype Result<+T, +E> = Success(value: T) | Failure(error: E)

  /** `!!s` for a string field: a missing field and the empty string are falsy. */
  predicate Truthy(s: Option<string>) {
    s.Some? && s.value != ""
  }

  /** `n || d` for a numeric field: a missing field and 0 are falsy. */
  function NumberOr(n: Option<int>, d: int): int {
    if n.Some? && n.value != 0 then n.value else d
  }

  /** `b || false` for a boolean field. */
  function FlagOrFalse(b: Option<bool>): bool {
    b.Some? && b.value
  }

  /** `s || null` for a string field. */
  function StringOrNull(s: Option<string>): Option<string> {
    if Truthy(s) then s else None
  }

  /** `s.startsWith(prefix)`: a raw character prefix, not a path segment. */
  predicate StartsWith(s: string, prefix: string) {
    prefix <= s
  }

  /** A prefix of a prefix is a prefix. */
  lemma StartsWithTransitive(s: string, p: string, q: string)
    requires StartsWith(s, p) && StartsWith(p, q)
    ensures StartsWith(s, q)
  {
  }

  /** Two prefixes of one string that differ at some index within both
      cannot both hold. */
  lemma StartsWithExclusive(s: string, p: string, q: string, k: nat)
    requires k < |p| && k < |q| && p[k] != q[k]
    ensures StartsWith(s, p) ==> !StartsWith(s, q)
  {
  }
}

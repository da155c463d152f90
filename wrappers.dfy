/** Optional values: a JSON key that may be absent, a lookup that may miss,
    an operation that may throw. */
module Wrappers {

  datatype Option<+T> = None | Some(value: T) {

    /** The value, or `default` when there is none (Python's `dict.get(k, default)`). */
    function GetOr(default: T): T {
      match this
      case Some(v) => v
      case None => default
    }
  }

  /** Python truthiness of an optional number: absent, null and 0 are false. */
  predicate Truthy(c: Option<real>) {
    c.Some? && c.value != 0.0
  }
}

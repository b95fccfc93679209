/** Optional values, as the model uses them: a key missing from an object,
    a value a validator refused, a name that matches no entry. */
module Wrappers {

  datatype Option<T> = Some(value: T) | None

  /** The value held by `o`, or `fallback` when `o` holds none. */
  function ValueOr<T>(o: Option<T>, fallback: T): T {
    if o.Some? then o.value else fallback
  }
}

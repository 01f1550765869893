/** An optional value: JavaScript's `null` / `undefined` next to a present value. */
module Optional {

  datatype Option<+T> = None | Some(value: T) {

    /** The present value, or `default` when there is none (`??` in the source). */
    function GetOr(default: T): (r: T)
      ensures Some? ==> r == value
      ensures None? ==> r == default
    {
      match this
      case Some(v) => v
      case None => default
    }
  }

  /** A present, non-empty string: JavaScript truthiness of a string that may be null. */
  predicate Truthy(s: Option<string>) {
    s.Some? && s.value != ""
  }
}

/** The optional-value datatype used for TypeScript's optional (`?:`) fields and
    for the keys of a `Partial<T>` patch. */
module Wrappers {

  datatype Option<+T> = None | Some(value: T) {

    /** The wrapped value, or `default` when there is none. */
    function GetOr(default: T): T {
      match this
      case Some(v) => v
      case None => default
    }
  }
}

/** The Option type, used for lookups that may find nothing. */
module Wrappers {

  /** Either a value (`Some`) or nothing (`None`), in place of a null or NaN result. */
  datatype Option<+T> = None | Some(value: T) {

    /** The value held, or `default` when there is none. */
    function GetOr(default: T): T {
      match this
      case Some(v) => v
      case None => default
    }
  }
}

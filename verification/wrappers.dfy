/** The conventional optional value, used wherever the source holds a
    possibly-null shared pointer or an optional catalogue value. */
module Wrappers {

  datatype Option<+T> = None | Some(value: T) {

    /** The contained value, or `default` when there is none. */
    function GetOr(default: T): T {
      match this
      case Some(v) => v
      case None => default
    }
  }
}

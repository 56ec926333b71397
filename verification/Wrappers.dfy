/** Option: the model's reading of a nullable column, an absent map entry or a missing JSON field. */
module Wrappers {

  datatype Option<+T> = None | Some(value: T) {

    /** The `??` operator: the value when there is one, otherwise `fallback`. */
    function GetOr(fallback: T): T {
      match this
      case None => fallback
      case Some(v) => v
    }
  }

  function OrElse<T>(first: Option<T>, second: Option<T>): Option<T> {
    if first.Some? then first else second
  }
}

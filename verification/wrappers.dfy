/** The optional value used throughout the model: `None` stands for a
    JavaScript `null`, a missing storage entry, or a primitive that threw. */
module Wrappers {

  datatype Option<+T> = None | Some(value: T) {

    /** The wrapped value, or `default` when there is none. */
    function GetOr(default: T): T {
      match this
      case Some(v) => v
      case None => default
    }
  }
}

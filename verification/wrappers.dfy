/** Optional values: `None` stands for a Go nil container where the model
    has to tell nil apart from an allocated-but-empty one. */
module Wrappers {

  datatype Option<+T> = None | Some(value: T) {

    /** The contents, with `None` read as empty by the caller's default. */
    function GetOr(default: T): T
    {
      match this
      case Some(v) => v
      case None => default
    }
  }
}

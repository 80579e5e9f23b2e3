/** Optional values, used where the source yields `null`/`None` or a 404. */
module Wrappers {

  datatype Option<+T> = None | Some(value: T) {

    /** The wrapped value, or `default` when there is none (Python's `x or default`). */
    function GetOr(default: T): T {
      match this
      case Some(v) => v
      case None => default
    }
  }

  /** The outcome of `get_object_or_404`: the row that was found, or a 404 response. */
  datatype Lookup<+T> = Found(value: T) | NotFound
}

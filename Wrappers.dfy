/** Option and Result, the two failure-carrying shapes the pipeline uses. */
module Wrappers {

  datatype Option<+T> = None | Some(value: T) {
    function GetOr(default: T): T {
      match this
      case Some(v) => v
      case None => default
    }
  }

  datatype Result<+T, +E> = Ok(value: T) | Err(error: E)

  /** The first alternative that succeeds wins (an ordered choice of two). */
  function OrElse<T>(first: Option<T>, second: Option<T>): (r: Option<T>)
    ensures first.Some? ==> r == first
    ensures first.None? ==> r == second
  {
    if first.Some? then first else second
  }
}

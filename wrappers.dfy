/** Option and Result, used for SQL NULLs and for the handlers' error replies. */
module Wrappers {

  /** A nullable column value: `None` is SQL NULL. */
  datatype Option<+T> = None | Some(value: T) {
    /** The value, or `default` for NULL (JavaScript's `x || default` on a number). */
    function GetOr(default: T): T {
      match this
      case Some(v) => v
      case None => default
    }
  }

  /** The outcome of a request handler: a reply body or an error reply. */
  datatype Result<+R, +E> = Ok(value: R) | Err(error: E)
}

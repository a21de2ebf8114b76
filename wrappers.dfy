/** Optional values for the graph's null-tolerant reads, and the outcome of a
    reader that rejects a null handle. */
module Wrappers {

  /** A value read through `?.` or `??`: absent (null) or present. */
  datatype Option<+T> = None | Some(value: T) {

    /** The value, or `default` when absent (the source's `?? default`). */
    function GetOr(default: T): T {
      match this
      case Some(v) => v
      case None => default
    }
  }

  /** The result of a reader that throws ArgumentNullException on a null image. */
  datatype Result<+T> = Ok(value: T) | ArgumentNull
}

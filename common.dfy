/** Optional values and failures, as the TypeScript code expresses them with
    `null`/`undefined` and with thrown errors. */
module Common {

  /** A value that may be absent (`T | null` or `T | undefined`). */
  datatype Option<+T> = None | Some(value: T) {
    /** `x ?? d` */
    function OrElse(d: T): T {
      match this
      case Some(v) => v
      case None => d
    }
  }

  /** The outcome of an operation that either returns a value or throws. */
  datatype Result<+T, +E> = Ok(value: T) | Err(error: E)
}

/** Optional values and fallible results: `undefined`/`null` and thrown errors
    of the TypeScript sources become these values. */
module Wrappers {

  /** `T | undefined` (or `T | null`). */
  datatype Option<+T> = None | Some(value: T) {

    /** `x ?? default` */
    function GetOr(default: T): T {
      match this
      case Some(v) => v
      case None => default
    }
  }

  /** A promise that resolves to a value or rejects with an error. */
  datatype Result<+T, +E> = Ok(value: T) | Err(error: E)
}

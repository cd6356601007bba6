/** Optional values and the outcome of an awaited remote call. */
module Wrappers {

  /** A value that may be absent: TypeScript's `T | undefined` / `T | null`. */
  datatype Option<+T> = None | Some(value: T) {
    /** The value, or `default` when absent. */
    function GetOr(default: T): T {
      match this
      case Some(v) => v
      case None => default
    }
  }

  /** What an awaited remote call settles to: resolved with a value, or rejected.
      The rejection's detail is not kept, because the store only logs it. */
  datatype Outcome<+T> = Ok(v: T) | Err
}

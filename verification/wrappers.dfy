/** Optional values and error-or-value results, the two shapes the model
    needs for JavaScript's `undefined` and for rejected inputs. */
module Wrappers {

  /** A value that may be absent (`undefined` in the source). */
  datatype Option<+T> = None | Some(value: T) {

    /** The carried value, or `default` when absent (the source's `x || default`). */
    function GetOr(default: T): T {
      match this
      case Some(v) => v
      case None => default
    }
  }

  /** Either an accepted value or the reason it was rejected. */
  datatype Result<+T, +E> = Success(value: T) | Failure(error: E)
}

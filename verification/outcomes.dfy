/** Optional values and results with an error, used wherever the Java code
    returns `null`, returns the sentinel -1 or throws. */
module Outcomes {

  /** `None` stands for Java's `null`. */
  datatype Option<+T> = None | Some(value: T)

  /** A value, or the error the Java code would raise instead of returning. */
  datatype Result<+T, +E> = Success(value: T) | Failure(error: E)
}

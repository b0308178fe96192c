/** Option and Result, the two failure-aware datatypes the builder model is written with.
    A Java reference that may be null becomes an Option; a call that may throw returns a Result. */
module Wrappers {

  /** A value that may be absent: None stands for a Java null. */
  datatype Option<T> = None | Some(value: T) {

    /** The wrapped value, or the given default when absent. */
    function GetOr(default: T): T {
      match this
      case Some(v) => v
      case None => default
    }
  }

  /** The outcome of a call that either returns a value or throws an error. */
  datatype Result<T, E> = Success(value: T) | Failure(error: E)
}

/** Optional values (C# nullable references and Nullable<T>) and the outcome of a store read. */
module Wrappers {

  /** `None` stands for C# `null`. */
  datatype Option<+T> = None | Some(value: T) {

    /** The C# null-coalescing operator `x ?? d`. */
    function GetOr(default: T): T {
      match this
      case Some(v) => v
      case None => default
    }
  }

  /** The application's `Result<T>`: a value, or the failure message. */
  datatype Result<+T> = Success(value: T) | Failure(error: string)

  /** A read from the relational store inside a try block: the rows it returned,
      or the message of the exception it raised. */
  datatype Fetch<+T> = Rows(rows: T) | StoreError(message: string)
}

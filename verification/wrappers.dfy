/** Failure-carrying values shared by the whole model. */
module Wrappers {

  /** A value that may be absent; `None` stands for Java's `null` or an empty `Optional`. */
  datatype Option<T> = None | Some(value: T) {

    /** The value, or `default` when absent (Java's `Optional.orElse`). */
    function GetOr(default: T): T {
      match this
      case Some(v) => v
      case None => default
    }
  }

  /** The outcome of an operation that either returns a value or raises an error. */
  datatype Result<T, E> = Success(value: T) | Failure(error: E)
}

/** The exceptions the modelled code raises or carries. */
module Errors {

  datatype Error =
      /** `AppendConditionAssertionException.tooManyIndices(requested, supported)` */
    | TooManyIndices(requested: int, supported: int)
      /** `AppendConditionAssertionException.consistencyMarkerSurpassed(marker)` */
    | ConsistencyMarkerSurpassed(marker: int)
      /** `UnsupportedOperationException` with its message */
    | UnsupportedOperation(message: string)
      /** `IllegalArgumentException` raised by a sorted map's `subMap` when its bounds are reversed */
    | IllegalArgument
      /** `NullPointerException` from dereferencing an absent value */
    | NullPointer
      /** `CompletionException` with its cause, as a dependent `CompletableFuture` stage wraps a failure */
    | Completion(cause: Error)
      /** any other `Throwable` a failed stream or future may carry */
    | Raised(description: string)
}

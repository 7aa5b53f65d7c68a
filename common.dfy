/** Shared result types and the exceptions the cache service can raise. */
module Common {

  /** A value or its absence (a C# null reference or a nullable long). */
  datatype Option<T> = None | Some(value: T)

  /** The outcome of an operation that may throw. */
  datatype Result<T, E> = Ok(value: T) | Err(error: E)

  /** The exceptions of the modelled code, by kind. */
  datatype Fault =
    | ArgumentNullOrEmpty(param: string)   // Enforce.AgainstNullOrEmpty
    | ArgumentNull(param: string)          // Enforce.AgainstNull
    | NullReference                        // a member access on null
    | IndexOutOfRange                      // an array index past the end
    | DecodeFailed                         // a stored payload the codec cannot unpack
    | BackendFailure                       // a failed call to the Redis server
    | ExecutableFailed(reason: string)     // whatever the caller's computation throws

  function OrZero(o: Option<int>): int
  {
    if o.Some? then o.value else 0
  }
}

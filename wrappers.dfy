/** Optional values and fallible results, as the Go code expresses them with
  * nil pointers and (value, error) pairs. */
module Wrappers {
  datatype Option<T> = None | Some(value: T)
  {
    function UnwrapOr(default: T): T
    {
      match this
      case None => default
      case Some(v) => v
    }
  }

  /** A Go (value, error) pair. An error is carried as its message. A Go runtime
    * panic (a failed type assertion, an index out of range) is an error whose
    * message starts with "panic: ". */
  datatype Result<T> = Ok(value: T) | Err(error: string)
  {
    predicate IsFailure() { Err? }
  }

  const PanicConversion: string := "panic: interface conversion"
  const PanicIndex: string := "panic: index out of range"
}

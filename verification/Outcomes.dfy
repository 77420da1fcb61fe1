/** Results of operator calls: a Go function here either returns a value, returns an
    error, or crashes on a nil dereference or an explicit `panic`. */
module Outcomes {

  datatype Option<+T> = None | Some(value: T)

  datatype Failure =
    | LookupFailed(name: string)
    | DuplicateAuthenticator(name: string)
    | MarshalFailed
    | VectorFailed
    | MergeFailed(group: string)
    | ApiReadFailed
    | RandomFailed

  datatype Outcome<+T> = Ok(value: T) | Err(error: Failure) | Panic

  /** Passing a callee's failure on to the caller. */
  function Propagate<T, U>(callee: Outcome<T>): Outcome<U> {
    match callee
    case Err(error) => Err(error)
    case _ => Panic
  }
}

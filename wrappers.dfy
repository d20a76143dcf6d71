/** Small value wrappers shared by the whole model. */
module Wrappers {

  /** A value that may be absent: TypeScript's `T | null` and optional `T | undefined`. */
  datatype Option<+T> = None | Some(value: T)

  /** What a rejected promise carries: an `Error` object with its message, or any other value. */
  datatype Thrown = ErrorObject(message: string) | OtherValue

  /** How an awaited call ended: the value it resolved to, or what it threw. */
  datatype Awaited<+T> = Resolved(value: T) | Rejected(thrown: Thrown)

  /** The message a `catch` block shows: `err instanceof Error ? err.message : fallback`. */
  function MessageOf(thrown: Thrown, fallback: string): (m: string)
    ensures thrown.ErrorObject? ==> m == thrown.message
    ensures thrown.OtherValue? ==> m == fallback
  {
    match thrown
    case ErrorObject(message) => message
    case OtherValue => fallback
  }
}

/** Option and Outcome: an absent value, and a computation that either
    returns a value or throws, as the JavaScript code does. */
module Wrappers {

  datatype Option<+T> = None | Some(value: T)

  /** What a thrown JavaScript error stands for. */
  datatype Thrown =
    | TypeError(detail: string)     // property access on null, a missing method, `.map` on a non-array
    | Raised(message: string)       // an explicit `throw new Error(message)`

  /** Either a value or an exception that propagates to the caller. */
  datatype Outcome<+T> = Ok(value: T) | Throws(error: Thrown)
}

/** What the other modules share: failure-carrying types, time, and the fate of a call. */
module Wrappers {

  datatype Option<+T> = None | Some(value: T)

  datatype Result<+T, +E> = Ok(value: T) | Err(error: E)

  /** Nanoseconds since the epoch. */
  type Time = int

  /** A call takes effect or not, and its caller is told so or not. A call that did not take
      effect is never reported as done. */
  datatype Fate = Fate(landed: bool, reported: bool)
  {
    predicate Honest() {
      reported ==> landed
    }
  }
}

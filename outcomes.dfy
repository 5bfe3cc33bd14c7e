/** Absent values (Java's null) and raised exceptions, as data. */
module Outcomes {

  /** A possibly-absent value: None stands for a Java null reference. */
  datatype Option<+T> = None | Some(value: T) {
    function GetOr(default: T): T {
      match this
      case Some(v) => v
      case None => default
    }
  }

  /** The outcome of a call that may raise: Ok carries the value returned,
      Thrown the message of the exception raised. */
  datatype Try<+T> = Ok(value: T) | Thrown(message: string)

  /** The outcome of a call that returns nothing but may raise. */
  datatype Outcome = Pass | Fail(message: string)
}

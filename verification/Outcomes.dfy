/** Results shared by every component: optional values, results with an error, and the ways in
    which an asynchronous operation of the client can end. */
module Outcomes {

  datatype Option<+T> = None | Some(value: T) {

    function GetOr(default: T): T {
      if Some? then value else default
    }
  }

  /** How an awaited operation ends: with a value, with an exception, with the
      exception raised when a record fails validation, or with the death of the process. */
  datatype Outcome<+T> = Ok(value: T) | Failed | Rejected | Crashed {

    predicate IsFailure() {
      !Ok?
    }

    function PropagateFailure<U>(): Outcome<U>
      requires !Ok?
    {
      match this
      case Failed => Failed
      case Rejected => Rejected
      case Crashed => Crashed
    }

    function Extract(): T
      requires Ok?
    {
      value
    }
  }

  /** The result of a check that names what is wrong. */
  datatype Result<+T, +E> = Success(value: T) | Failure(error: E)
}

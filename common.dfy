/** Failure-carrying datatypes shared by every module: JavaScript's
    `undefined`/`null` become `None`, a thrown `Error` becomes `Err` with the
    error's message. */
module Common {

  datatype Option<+T> = None | Some(value: T) {
    function GetOr(default: T): T {
      match this
      case Some(v) => v
      case None => default
    }
  }

  /** The value of a computation that may throw `new Error(message)`. */
  datatype Result<+T> = Ok(value: T) | Err(error: string)

  /** The outcome of a step that returns nothing but may throw. */
  datatype Outcome = Pass | Fail(error: string)

  function Min(a: int, b: int): int { if a <= b then a else b }

  function Max(a: int, b: int): int { if a <= b then b else a }
}

/** Option and Result, the failure-carrying datatypes used by every other module,
    and the choice between the code as written and its corrected reading. */
module Wrappers {

  datatype Option<+T> = None | Some(value: T) {
    function GetOr(default: T): T {
      match this
      case Some(v) => v
      case None => default
    }
  }

  /** A JavaScript `throw` becomes a Failure; a normal return a Success. */
  datatype Result<+T, +E> = Success(value: T) | Failure(error: E) {
    predicate IsFailure() { Failure? }
  }

  /** Which reading of the code a definition follows: the code `AsWritten`, or
      `Corrected`, where the defects the model documents are repaired. */
  datatype Version = AsWritten | Corrected
}

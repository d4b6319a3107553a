/** Failure-carrying results and the error kinds the toolkit can report.
    The first five are the MLException codes; the last three stand for the
    unchecked Java exceptions the code lets escape (a null dereference, a
    failed cast, an index outside a list or array). */
module Errors {

  datatype Option<+T> = None | Some(value: T)

  datatype Error =
    | IncompatibleFeatureType
    | IncompatibleInstance
    | InvalidParameter
    | InvalidState
    | ClassifierExists
    | NullPointer
    | ClassCast
    | IndexOutOfBounds

  /** The integer code an MLException carries, or None for an unchecked exception. */
  function Code(e: Error): (c: Option<int>)
    ensures c.Some? <==> (e.IncompatibleFeatureType? || e.IncompatibleInstance? || e.InvalidParameter?
                          || e.InvalidState? || e.ClassifierExists?)
    ensures c.Some? ==> 100 <= c.value <= 200
    ensures e.IncompatibleFeatureType? ==> c == Some(100)
    ensures e.IncompatibleInstance? ==> c == Some(101)
    ensures e.InvalidParameter? ==> c == Some(102)
    ensures e.InvalidState? ==> c == Some(103)
    ensures e.ClassifierExists? ==> c == Some(200)
  {
    match e
    case IncompatibleFeatureType => Some(100)
    case IncompatibleInstance => Some(101)
    case InvalidParameter => Some(102)
    case InvalidState => Some(103)
    case ClassifierExists => Some(200)
    case _ => None
  }

  datatype Result<+T> = Ok(value: T) | Err(error: Error)

  /** The result of an operation that returns nothing but may throw. */
  datatype Outcome = Pass | Fail(error: Error)
}

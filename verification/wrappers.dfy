/** Failure-carrying datatypes shared by the model: `Option` for Python's
    `None`-or-value and `Result` for operations that raise an exception in
    the game (a missing dictionary key, a bad integer conversion, an index
    into an empty list). */
module Wrappers {

  datatype Option<+T> = None | Some(value: T) {

    /** Returns the value in `Some`, or `default` for `None`. */
    function GetOr(default: T): T {
      match this
      case Some(v) => v
      case None => default
    }
  }

  /** The exceptions the modelled code can raise, by kind. */
  datatype Error =
    | MissingKey(key: string)      // KeyError from `d["..."]`
    | BadValue(field: string)      // ValueError / TypeError from int(), float(), .items()
    | EmptyParty                   // IndexError from `party_state[0]` on an empty party

  datatype Result<+R> = Success(value: R) | Failure(error: Error) {

    predicate IsFailure() {
      Failure?
    }

    function PropagateFailure<U>(): Result<U>
      requires Failure?
    {
      Failure(error)
    }

    function Extract(): R
      requires Success?
    {
      value
    }
  }
}

/** Small failure-carrying datatypes shared by the model: `Option` for the
    source's `None`-or-value returns and `Result` for operations that raise. */
module Results {

  datatype Option<+T> = None | Some(value: T) {
    function GetOr(default: T): T {
      match this
      case Some(v) => v
      case None => default
    }
  }

  /** The exceptions the core raises: `ValueError` in its several messages,
      and the `OverflowError` of `datetime` arithmetic that leaves years
      1..9999. The payload is the part of a message that depends on the input. */
  datatype Error =
    | NoPathsGiven
    | MultipleWhere
    | NoQuerySpecified
    | InvalidDaySpec(spec: string)
    | Overflow

  datatype Result<+T> = Success(value: T) | Failure(error: Error)
}

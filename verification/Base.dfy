/** Values every part of the model shares: optional values, outcomes of an
    operation that may throw, and bounded choice on quantities. */
module Base {
  /** Identifiers are opaque: only equality is ever used. */
  type Id = nat

  datatype Option<+T> = None | Some(value: T)

  /** The exceptions the services throw, one constructor per distinct cause. */
  datatype Error =
    | QuantityNotPositive
    | InsufficientStock
    | UnknownBatch
    | NotFound
    | BadRequest
    | OverReceipt
    | NotPendingQc
    | FifoViolation
    | Forbidden
    | Closed
    | Unauthorized

  /** An operation either yields a value or throws. */
  datatype Result<+T> = Ok(value: T) | Err(error: Error) {
    predicate IsFailure() {
      Err?
    }

    function PropagateFailure<U>(): Result<U>
      requires Err?
    {
      Err(error)
    }

    function Extract(): T
      requires Ok?
    {
      value
    }
  }

  function Min(a: real, b: real): real {
    if a <= b then a else b
  }

  function Max(a: real, b: real): real {
    if a <= b then b else a
  }
}

/** Failure-aware results shared by every part of the model. A Java exception
    from a call that leaves the chain alone becomes an `Err` carrying the kind
    of failure; calls that write to the chain use `Chain.Outcome`. */
module Outcomes {

  /** The ways an operation of the bit set can fail. `IllegalArgument`,
      `IndexOutOfBounds` and `NullPointer` are the Java exceptions the source
      throws; `DetachedReceiver` and `OutOfFuel` mark runs of a driver loop that
      leave what a position-based model can describe (see README). */
  datatype Error =
    | IllegalArgument
    | IndexOutOfBounds
    | NullPointer
    | DetachedReceiver
    | OutOfFuel

  datatype Option<+T> = None | Some(value: T)

  datatype Result<+T> = Ok(value: T) | Err(error: Error) {

    predicate IsFailure() {
      Err?
    }

    function PropagateFailure<U>(): Result<U>
      requires Err?
    {
      Err(error)
    }

    function Extract(): T
      requires Ok?
    {
      value
    }
  }

  /** The outcome of an argument check: it either passes or throws. */
  datatype Check = Pass | Fail(error: Error)
}

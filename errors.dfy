/** Error kinds of the driver, and the Option and failure-compatible wrappers that carry them.
    Every `throw` of the driver becomes one of the `Error` constructors below. */
module Errors {

  datatype Error =
    | IoError           // an open, ioctl or close call failed
    | UnexpectedDevice  // the chip-id register does not hold the BME280 id
    | ResetTimeout      // the status register never became idle after a soft reset
    | OutOfRange        // a block read reported more bytes than the buffer holds
    | NotReady          // a raw measurement still holds its power-on-reset value
    | Overflow          // a signed C++ operation overflowed (undefined behaviour)
    | DivisionByZero    // an integer division by zero (undefined behaviour)

  datatype Option<+T> = None | Some(value: T)

  datatype Result<+T> = Ok(value: T) | Err(error: Error) {
    predicate IsFailure() { Err? }

    function PropagateFailure<U>(): Result<U>
      requires Err?
    {
      Err(error)
    }

    function Extract(): T
      requires Ok?
    {
      value
    }
  }

  datatype Outcome = Pass | Fail(error: Error) {
    predicate IsFailure() { Fail? }

    function PropagateFailure(): Outcome
      requires Fail?
    {
      this
    }
  }
}

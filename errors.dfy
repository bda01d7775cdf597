/** The outcomes of a decode call: a value, or the reason decoding stopped. */
module Errors {

  /** Why a decode call fails.  `NoMarker` is the package's `ErrNoMarker`;
      `CountTooLarge` is the "count is too large" error of the property reader;
      `Truncated` stands for every slice expression that would panic because it
      reaches past the end of its buffer; `NoAttachment` stands for the nil
      dereference of an attachment-level record that arrives before any
      attachment was opened. */
  datatype Error =
    | NoMarker
    | Truncated
    | CountTooLarge(count: nat)
    | NoAttachment

  /** A value, or the error that stopped the computation; usable with `:-`. */
  datatype Result<+T> = Ok(value: T) | Err(error: Error) {

    predicate IsFailure() {
      Err?
    }

    function PropagateFailure<U>(): Result<U>
      requires Err?
    {
      Err(error)
    }

    function Extract(): T
      requires Ok?
    {
      value
    }
  }
}

/** Shared vocabulary of the input pipeline: the boundary token and the fatal errors. */
module Tokens {

  /** The end-of-text token id that separates stitched records. */
  const EndOfText: int := 50256

  /** The runtime failures of the pipeline; each one is fatal to the dataset. */
  datatype Error =
    | EmptyOffsetRange(size: nat, nCtx: nat)  // a uniform draw from [0, maxval) with maxval <= 0
    | ShapeMismatch(got: nat, want: nat)     // a reshape to [want] of a tensor with got elements
    | IndexOutOfRange(index: int, size: nat) // a gather at an index outside the tensor

  /** A value, or the error that ended the computation. */
  datatype Result<+T> = Ok(value: T) | Err(error: Error) {
    predicate IsFailure() { Err? }

    function PropagateFailure<U>(): Result<U>
      requires Err?
    {
      Err(error)
    }

    function Extract(): T
      requires Ok?
    {
      value
    }
  }

  function Min(a: int, b: int): int
  {
    if a <= b then a else b
  }
}

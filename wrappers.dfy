/** Failure values of the class-file decoder and the failure-compatible
    wrappers that carry them. Every condition under which the decoder
    panics becomes one of the `Error` variants. */
module Wrappers {

  datatype Error =
    | UnexpectedEof                     // the buffer ends before a field is complete
    | InvalidConstantTag(tag: int)      // a constant-pool tag outside the decode table
    | InvalidIndex(index: int)          // a pool index out of range or on an empty slot
    | TypeMismatch(index: int)          // a pool slot holding another kind of entry

  datatype Option<+T> = None | Some(value: T)

  datatype Result<+T> = Ok(value: T) | Err(error: Error) {

    predicate IsFailure() {
      Err?
    }

    function PropagateFailure<U>(): Result<U>
      requires Err?
    {
      Err(error)
    }

    function Extract(): T
      requires Ok?
    {
      value
    }
  }

  /** The outcome of a step that only changes state. */
  datatype Outcome = Pass | Fail(error: Error) {

    predicate IsFailure() {
      Fail?
    }

    function PropagateFailure<U>(): Result<U>
      requires Fail?
    {
      Err(error)
    }
  }
}

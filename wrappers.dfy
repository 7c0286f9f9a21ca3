/** Option and Result, and the Python exceptions the hook generator can raise. */
module Wrappers {

  datatype Option<+T> = None | Some(value: T)

  /** The exceptions of the core, named by their cause. */
  datatype Failure =
    | SubstringNotFound  // ValueError from str.index / str.rindex
    | IndexOutOfRange    // IndexError from indexing a list or a string
    | UnpackMismatch     // ValueError from unpacking a split into two names
    | NoClassName        // ValueError raised by ObjcHeader.class_name

  /** Either a value or the exception that stopped the computation; usable with `:-`. */
  datatype Result<+T> = Ok(value: T) | Err(error: Failure) {

    predicate IsFailure() {
      Err?
    }

    function PropagateFailure<U>(): Result<U>
      requires Err?
    {
      Err(error)
    }

    function Extract(): T
      requires Ok?
    {
      value
    }
  }
}

/** Failure-carrying values used throughout the model: a missing value, and
    an operation that either succeeds or raises. */
module Wrappers {

  datatype Option<+T> = None | Some(value: T) {
    function GetOr(default: T): T {
      match this
      case Some(v) => v
      case None => default
    }
  }

  /** The kinds of exception the Python code can raise on the paths the
      model covers. */
  datatype Error =
    | IndexError        // a list or string index past the end
    | ValueError        // int()/float() of malformed text, or unequal DataFrame columns
    | KeyError          // a dictionary lookup of a missing key
    | NameError         // a variable read before any assignment
    | ZeroDivisionError // a division by an integer zero
    | FileNotFound      // opening a path that does not exist

  datatype Result<+T> = Ok(value: T) | Err(error: Error) {
    predicate IsFailure() { Err? }
    function PropagateFailure<U>(): Result<U>
      requires Err?
    {
      Err(error)
    }
    function Extract(): T
      requires Ok?
    {
      value
    }
  }
}

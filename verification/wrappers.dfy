/** Failure-carrying results shared by every module of the model.  The Python
    code signals failure by raising; here each raise becomes an `Err` whose
    `Error` names the exception class the interpreter would raise. */
module Wrappers {

  datatype Option<+T> = None | Some(value: T) {
    function GetOr(default: T): T {
      match this
      case Some(v) => v
      case None => default
    }
  }

  /** The Python exception a failing operation raises. */
  datatype Error =
    | KeyError(key: string)
    | IndexError(what: string)
    | AttributeError(what: string)
    | TypeError(what: string)
    | IOError(path: string)
    | SyntaxError(path: string)

  datatype Result<+T> = Ok(value: T) | Err(error: Error) {
    predicate IsFailure() {
      Err?
    }

    function PropagateFailure<U>(): Result<U>
      requires Err?
    {
      Err(error)
    }

    function Extract(): T
      requires Ok?
    {
      value
    }
  }
}

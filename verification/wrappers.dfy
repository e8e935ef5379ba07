/**
 * Optional values and outcomes shared by every module of the model. An
 * `Option` can be unwrapped with `:-`, which the readers of generated code use.
 */
module Wrappers {

  datatype Option<+T> = None | Some(value: T) {
    predicate IsFailure() { None? }

    function PropagateFailure<U>(): Option<U>
      requires None?
    {
      None
    }

    function Extract(): T
      requires Some?
    {
      value
    }

    /** `x ?? default` */
    function GetOr(default: T): T {
      if Some? then value else default
    }
  }

  /** What an operation that can throw produced: its value or the error it threw. */
  datatype Result<+R, +E> = Ok(value: R) | Err(error: E)
}

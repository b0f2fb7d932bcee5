/** Failure-carrying datatypes shared by every module of the model.

- Option<T>: a value that may be absent (a nullable column, a missing dict key).
- Result<T>: the outcome of a Python call that may raise; the error carries the
  text `str(e)` of the raised exception.
- HttpOutcome<T>: the outcome of an HTTP endpoint; a failure carries the status
  code and the `detail` of the raised HTTPException.
 */
module Wrappers {

  datatype Option<+T> = None | Some(value: T)

  datatype Result<+T> = Ok(value: T) | Err(msg: string) {

    predicate IsFailure() {
      Err?
    }

    function PropagateFailure<U>(): Result<U> {
      match this
      case Err(m) => Err(m)
      case Ok(_) => Err("")
    }

    function Extract(): T
      requires Ok?
    {
      value
    }

    /** `raise Exception(f"{prefix}{str(e)}")` around a failing call. */
    function WithPrefix(prefix: string): (r: Result<T>)
      ensures Ok? ==> r == this
      ensures Err? ==> r == Err(prefix + msg)
    {
      match this
      case Ok(v) => Ok(v)
      case Err(m) => Err(prefix + m)
    }
  }

  datatype HttpOutcome<+T> = Answer(value: T) | HttpError(status: int, detail: string)

  /** The detail of the 500 answer to an exception an endpoint does not catch. */
  const InternalErrorText := "Internal Server Error"
}

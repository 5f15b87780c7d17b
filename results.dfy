/** Option and Result types, and the Python exceptions the modelled code can raise. */
module Results {

  datatype Option<+T> = None | Some(value: T) {
    function GetOr(default: T): T {
      match this
      case Some(v) => v
      case None => default
    }
  }

  /** The exceptions that escape from the modelled functions.  Python raises them; here they are values. */
  datatype Error =
    | KeyError(key: string)       // `d[key]` on a dict (or a DataFrame column lookup) without that key
    | TypeError                   // subscripting or iterating a value of the wrong type, float() of a dict
    | AttributeError              // `.items()` on a non-dict, `frame.h1` without an `h1` column
    | ValueError                  // float() of a string that is not a number, or of a list
    | JSONDecodeError             // json.loads of a string that is not JSON

  datatype Result<+T> = Ok(value: T) | Err(error: Error) {
    predicate IsFailure() {
      Err?
    }

    function PropagateFailure<U>(): Result<U>
      requires Err?
    {
      Err(error)
    }

    function Extract(): T
      requires Ok?
    {
      value
    }
  }
}

/** Option and Result, the two sum types the Rust code uses everywhere.
    Result supports `:-`, which plays the part of Rust's `?` operator. */
module Wrappers {

  datatype Option<+T> = None | Some(value: T)

  datatype Result<+R, +E> = Ok(value: R) | Err(error: E) {

    predicate IsFailure() {
      Err?
    }

    function PropagateFailure<U>(): Result<U, E>
      requires Err?
    {
      Err(error)
    }

    function Extract(): R
      requires Ok?
    {
      value
    }

    /** Converts the error, as Rust's `?` does through a `From` impl. */
    function MapFailure<F>(convert: E -> F): Result<R, F>
    {
      match this
      case Ok(v) => Ok(v)
      case Err(e) => Err(convert(e))
    }
  }
}

/** Failure-carrying results and the exception kinds the fetchers raise. */
module Wrappers {

  /** The Python exceptions (and framework errors) that the modelled code can raise. */
  datatype Error =
    | ValueError(message: string)   // `raise ValueError(...)`, or a failing conversion
    | KeyError(key: string)         // a missing dictionary key or DataFrame column
    | TypeError                     // an operation applied to a value of the wrong type
    | AttributeError                // a method called on `None`
    | IndexError                    // a list index out of range
    | EmptyData                     // openbb's `EmptyDataError`: the data store returned nothing
    | PandasEmptyData               // pandas' own `EmptyDataError`, a different class
    | UndefinedName(name: string)   // pandas `UndefinedVariableError`: a `df.query` name that is no column
    | Failure(message: string)      // a bare `raise Exception(...)`

  datatype Option<+T> = None | Some(value: T)

  datatype Result<+T> = Ok(value: T) | Err(error: Error) {
    predicate IsFailure() { Err? }

    function PropagateFailure<U>(): Result<U>
      requires Err?
    {
      Err(error)
    }

    function Extract(): T
      requires Ok?
    {
      value
    }
  }
}

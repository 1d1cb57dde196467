/** The exceptions the catalog pipeline can raise, and a Result type that
    carries either a value or one of them. */
module Results {

  /** The failures of the modelled code, named after the Python exceptions. */
  datatype Error =
    | ParseError(text: string)    // a `last_updated` string that is not a date
    | KeyError(column: string)    // a column the table lacks
    | IndexError                  // `.iloc[0]` of an empty selection

  datatype Result<+T> = Ok(value: T) | Err(error: Error) {

    predicate IsFailure() {
      Err?
    }

    function PropagateFailure<U>(): Result<U>
      requires Err?
    {
      Err(error)
    }

    function Extract(): T
      requires Ok?
    {
      value
    }
  }
}

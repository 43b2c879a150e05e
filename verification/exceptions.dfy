/** The Python exceptions the modelled code can raise, and a Result type that
    carries either a value or the exception that stopped the computation.
    Result is failure-compatible, so `var x :- e; ...` models Python's
    left-to-right evaluation in which the first raise wins. */
module Exceptions {

  datatype Exception =
    | KeyError(key: string)  // `d[key]` on a dict that lacks `key`
    | TypeError              // subscript or `in` on a value that does not support it
    | AttributeError         // `.get` or `.split` on a value that has no such method
    | ValueError             // `datetime.strptime` on text that does not fit the format

  datatype Result<+T> = Ok(value: T) | Err(error: Exception) {

    predicate IsFailure() {
      Err?
    }

    function PropagateFailure<U>(): Result<U>
      requires Err?
    {
      Err(error)
    }

    function Extract(): T
      requires Ok?
    {
      value
    }
  }
}

/** Optional values, results and the exceptions the binding engine can raise. */
module Outcomes {

  datatype Option<+T> = None | Some(value: T)

  /** The .NET exceptions that the modelled code throws or lets escape. */
  datatype Error =
    | ArgumentNull(param: string)        // ArgumentNullException
    | Argument(reason: string)           // ArgumentException (including a duplicate Dictionary key)
    | ArgumentOutOfRange(param: string)  // ArgumentOutOfRangeException
    | Format(what: string)               // FormatException / UriFormatException
    | Overflow                           // OverflowException
    | InvalidCast                        // InvalidCastException
    | NullReference                      // NullReferenceException
    | MissingMethod                      // MissingMethodException (no parameterless constructor)
    | Unmodelled(what: string)           // a library conversion this model does not describe

  datatype Result<+T> = Ok(value: T) | Err(error: Error)
}

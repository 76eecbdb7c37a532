/** Failure-carrying wrappers for the results of lookups and parses. */
module Wrappers {

  /** An optional value, as returned by `HashMap::get` and `Chars::next`. */
  datatype Option<+T> = None | Some(value: T)

  /** The result of a parse whose error value carries nothing the model needs. */
  datatype Result<+T> = Ok(value: T) | Err
}

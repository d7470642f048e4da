/** The value types the models share. */
module Wrappers {

  datatype Option<+T> = None | Some(value: T)

  datatype Result<+T, +E> = Ok(value: T) | Err(error: E)

  /** A Go map read: the stored text, or "" for a key that is not there. */
  function Lookup(m: map<string, string>, key: string): string
  {
    if key in m then m[key] else ""
  }
}

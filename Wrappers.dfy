/** Option and Result types, and the Python exceptions the modelled code can raise. */
module Wrappers {

  datatype Option<+T> = None | Some(value: T)

  datatype Result<+T, +E> = Ok(value: T) | Err(error: E)

  /** Exceptions raised by the engine's own code (not by the vector store). */
  datatype PyError =
    | KeyError(key: string)  // `d[key]` on a dict without that key
    | IndexError             // a list indexed past its end

  function Min(a: int, b: int): int
  {
    if a <= b then a else b
  }
}

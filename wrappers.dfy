/** Option and Result, used for the loader's "die" paths and the opcode lookup. */
module Wrappers {
  datatype Option<+T> = None | Some(value: T)

  datatype Result<+T, +E> = Ok(value: T) | Err(error: E)
}

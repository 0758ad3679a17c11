/** Small types and functions shared by the modules. */
module Basics {
  newtype byte = x: int | 0 <= x < 256

  const NEWLINE: byte := 10

  datatype Option<+T> = None | Some(value: T)

  datatype Result<+T, +E> = Ok(value: T) | Err(error: E)

  function AtLeastZero(x: int): (r: int)
    ensures r >= 0
  {
    if x < 0 then 0 else x
  }
}

/** Success and failure values shared by every part of the model. */
module Wrappers {
  datatype Option<+T> = None | Some(value: T)

  datatype Result<+T, +E> = Ok(value: T) | Err(error: E)

  /** A value of the source's `u64`; arithmetic on it is checked where the source checks it. */
  const MAX_U64: nat := 0xFFFF_FFFF_FFFF_FFFF
  type U64 = n: int | 0 <= n <= MAX_U64

  function CheckedAdd(a: U64, b: U64): (r: Option<U64>)
  {
    if a + b <= MAX_U64 then Some(a + b) else None
  }
}

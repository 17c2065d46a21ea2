/** Small helper types shared by every module of the model. */
module Util {
  datatype Option<+T> = None | Some(value: T)

  /** An operation that either yields a value or fails with an error, the way the source throws. */
  datatype Result<+T, +E> = Ok(value: T) | Err(error: E)

  /** A Java String reference: `None` stands for `null`. */
  type JString = Option<string>

  /** What Java's string concatenation prints for a possibly-null string. */
  function Show(s: JString): string
  {
    if s.Some? then s.value else "null"
  }

  function Abs(x: int): nat
  {
    if x < 0 then -x else x
  }
}

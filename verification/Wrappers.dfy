/** What every module may use: failure-compatible datatypes, bytes, and two small functions. */
module Wrappers {

  datatype Option<+T> = None | Some(value: T)

  datatype Result<+T, +E> = Success(value: T) | Failure(error: E)

  type Byte = x: int | 0 <= x < 0x100
  type Bytes = seq<Byte>

  /** A sequence without the element at `i`. */
  function RemoveAt<T>(s: seq<T>, i: nat): seq<T>
    requires i < |s|
  {
    s[..i] + s[i + 1..]
  }

  /** One for a fact that holds. */
  function AsNumber(b: bool): nat {
    if b then 1 else 0
  }
}

/** Small shared datatypes. */
module Wrappers {

  /** A byte of file content. */
  newtype Byte = x: int | 0 <= x < 256

  datatype Option<+T> = None | Some(value: T)

  lemma AppendAssociates<T>(a: seq<T>, b: seq<T>, c: seq<T>)
    ensures a + (b + c) == (a + b) + c
  {
  }

  function Min(a: int, b: int): int {
    if a < b then a else b
  }
}

/** Shared by every module: an optional value, and concatenation. */
module Prelude {
  datatype Option<+T> = None | Some(value: T)

  lemma Reassociate<T>(a: seq<T>, b: seq<T>, c: seq<T>)
    ensures a + (b + c) == (a + b) + c
  {
  }
}

/** Optional values, used where the program reads a field that may be absent. */
module Wrappers {

  datatype Option<+T> = None | Some(value: T)

  /** Appending to an accumulator in two steps is appending once. */
  lemma AppendAssoc<T>(a: seq<T>, b: seq<T>, c: seq<T>)
    ensures a + b + c == a + (b + c)
  {
  }
}

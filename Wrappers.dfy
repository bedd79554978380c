/** Optional values and error results shared by every module of the model. */
module Wrappers {

  /** A value that may be absent (Kotlin `T?`, Python `None`). */
  datatype Option<+T> = None | Some(value: T)

  /** The outcome of an operation that can throw in the source. */
  datatype Result<+T, +E> = Success(value: T) | Failure(error: E)

  /** The result of an operation that throws, prefixed with the entries collected before it. */
  function Prefixed<T, E>(found: seq<T>, rest: Result<seq<T>, E>): Result<seq<T>, E> {
    if rest.Failure? then rest else Success(found + rest.value)
  }

  lemma PrefixedEmpty<T, E>(r: Result<seq<T>, E>)
    ensures Prefixed([], r) == r
  {
    if r.Success? {
      assert [] + r.value == r.value;
    }
  }

  lemma PrefixedConcat<T, E>(a: seq<T>, b: seq<T>, r: Result<seq<T>, E>)
    ensures Prefixed(a, Prefixed(b, r)) == Prefixed(a + b, r)
  {
    if r.Success? {
      assert a + (b + r.value) == (a + b) + r.value;
    }
  }
}

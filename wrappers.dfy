/** Option and Result, failure-compatible so that `:-` can be used with them. */
module Wrappers {

  datatype Option<+T> = None | Some(value: T) {
    predicate IsFailure() { None? }

    function PropagateFailure<U>(): Option<U>
      requires None?
    {
      None
    }

    function Extract(): T
      requires Some?
    {
      value
    }
  }

  datatype Result<+R, +E> = Success(value: R) | Failure(error: E) {
    predicate IsFailure() { Failure? }

    function PropagateFailure<U>(): Result<U, E>
      requires Failure?
    {
      Failure(error)
    }

    function Extract(): R
      requires Success?
    {
      value
    }
  }

  /** `done` followed by the elements `r` produces, or the failure of `r`. */
  function PrependTo<T, E>(done: seq<T>, r: Result<seq<T>, E>): Result<seq<T>, E>
  {
    match r
    case Success(rest) => Success(done + rest)
    case Failure(e) => Failure(e)
  }

  lemma PrependToAssoc<T, E>(done: seq<T>, x: T, r: Result<seq<T>, E>)
    ensures PrependTo(done, PrependTo([x], r)) == PrependTo(done + [x], r)
  {
    if r.Success? {
      assert done + ([x] + r.value) == (done + [x]) + r.value;
    }
  }

  lemma PrependToEmpty<T, E>(r: Result<seq<T>, E>)
    ensures PrependTo([], r) == r
  {
    if r.Success? {
      assert [] + r.value == r.value;
    }
  }

  function Min(a: int, b: int): int
  {
    if a <= b then a else b
  }
}

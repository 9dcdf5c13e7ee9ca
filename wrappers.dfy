/** Option and Result, the failure-carrying values used for the source's raised exceptions. */
module Wrappers {

  datatype Option<+T> = None | Some(value: T)

  datatype Result<+T, +E> = Success(value: T) | Failure(error: E)

  /**
   * Puts an already produced prefix in front of the outcome of the remaining
   * work: a list built by appending in a loop that stops at the first error.
   */
  function Prepend<T, E>(prefix: seq<T>, rest: Result<seq<T>, E>): (r: Result<seq<T>, E>)
    ensures r.Success? <==> rest.Success?
    ensures r.Success? ==> r.value == prefix + rest.value
    ensures r.Failure? ==> r.error == rest.error
  {
    match rest
    case Success(v) => Success(prefix + v)
    case Failure(e) => Failure(e)
  }

  lemma PrependTwice<T, E>(p: seq<T>, q: seq<T>, rest: Result<seq<T>, E>)
    ensures Prepend(p, Prepend(q, rest)) == Prepend(p + q, rest)
  {
    if rest.Success? {
      assert p + (q + rest.value) == (p + q) + rest.value;
    }
  }

  lemma PrependNothing<T, E>(r: Result<seq<T>, E>)
    ensures Prepend([], r) == r
  {
    if r.Success? {
      assert [] + r.value == r.value;
    }
  }
}

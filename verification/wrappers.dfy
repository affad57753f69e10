/** Failure-compatible wrappers used throughout the model, and the
    all-or-nothing traversal that several operations of the system share:
    apply a fallible step to every element in order and stop at the first
    failure, the way a Python loop or list comprehension stops at the first
    exception it does not catch. */
module Wrappers {

  /** A value that may be absent (Python's `None`). */
  datatype Option<+T> = None | Some(value: T) {
    predicate IsFailure() {
      None?
    }

    function PropagateFailure<U>(): Option<U>
      requires None?
    {
      None
    }

    function Extract(): T
      requires Some?
    {
      value
    }
  }

  /** Either a value or the exception that ended the computation. */
  datatype Result<+R, +E> = Success(value: R) | Failure(error: E) {
    predicate IsFailure() {
      Failure?
    }

    function PropagateFailure<U>(): Result<U, E>
      requires Failure?
    {
      Failure(error)
    }

    function Extract(): R
      requires Success?
    {
      value
    }
  }

  /** `k` is the index of the first element of `xs` on which `f` fails. */
  ghost predicate FirstFailure<A, B, E>(f: A -> Result<B, E>, xs: seq<A>, k: int) {
    && 0 <= k < |xs|
    && f(xs[k]).Failure?
    && forall j :: 0 <= j < k ==> f(xs[j]).Success?
  }

  /** There is at most one first failure. */
  lemma FirstFailureUnique<A, B, E>(f: A -> Result<B, E>, xs: seq<A>, k1: int, k2: int)
    requires FirstFailure(f, xs, k1) && FirstFailure(f, xs, k2)
    ensures k1 == k2
  {
  }

  /** Applies `f` to every element of `xs`, in order; the first failure is
      the outcome of the whole traversal and no partial list is returned. */
  function MapAll<A, B, E>(f: A -> Result<B, E>, xs: seq<A>): (r: Result<seq<B>, E>)
    ensures r.Success? <==> forall i :: 0 <= i < |xs| ==> f(xs[i]).Success?
    ensures r.Success? ==> |r.value| == |xs|
    ensures r.Success? ==> forall i :: 0 <= i < |xs| ==> f(xs[i]) == Success(r.value[i])
    ensures r.Failure? ==> exists k :: FirstFailure(f, xs, k) && r.error == f(xs[k]).error
    decreases |xs|
  {
    if |xs| == 0 then
      Success([])
    else
      match f(xs[0])
      case Failure(e) =>
        assert FirstFailure(f, xs, 0);
        Failure(e)
      case Success(y) =>
        match MapAll(f, xs[1..])
        case Failure(e) =>
          assert exists k :: FirstFailure(f, xs, k) && e == f(xs[k]).error by {
            var k :| FirstFailure(f, xs[1..], k) && e == f(xs[1..][k]).error;
            forall j | 0 <= j < k + 1
              ensures f(xs[j]).Success?
            {
              if j > 0 {
                assert xs[j] == xs[1..][j - 1];
              }
            }
            assert FirstFailure(f, xs, k + 1);
          }
          Failure(e)
        case Success(ys) =>
          assert forall i :: 1 <= i < |xs| ==> xs[i] == xs[1..][i - 1];
          Success([y] + ys)
  }
}

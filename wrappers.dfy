/** Option and Result, the stand-ins for Python's `None` and for raised exceptions. */
module Wrappers {

  /** `None` or a present value. */
  datatype Option<+T> = None | Some(value: T) {

    /** The value, or `default` when there is none (Python's `x if x is not None else default`). */
    function GetOr(default: T): T {
      match this
      case Some(v) => v
      case None => default
    }
  }

  /** The outcome of an operation that either returns a value or raises an error. */
  datatype Result<+T, +E> = Success(value: T) | Failure(error: E)

  /** A `for` loop that appends `f(x)` for each `x` in turn and propagates the first error
      raised: the results in order, or the first failure. */
  function MapResults<A, B, E>(xs: seq<A>, f: A -> Result<B, E>): (r: Result<seq<B>, E>)
    ensures r.Success? ==> |r.value| == |xs|
    decreases |xs|
  {
    if |xs| == 0 then Success([])
    else
      match MapResults(xs[..|xs| - 1], f)
      case Failure(e) => Failure(e)
      case Success(ys) =>
        match f(xs[|xs| - 1])
        case Failure(e) => Failure(e)
        case Success(y) => Success(ys + [y])
  }

  /** The loop succeeds exactly when every element does, and then yields each element's
      result at its position; otherwise it fails with the error of the first element that
      fails. */
  lemma {:induction false} MapResultsMeaning<A, B, E>(xs: seq<A>, f: A -> Result<B, E>)
    ensures MapResults(xs, f).Success? <==> forall k :: 0 <= k < |xs| ==> f(xs[k]).Success?
    ensures MapResults(xs, f).Success? ==>
      forall k :: 0 <= k < |xs| ==> f(xs[k]) == Success(MapResults(xs, f).value[k])
    ensures MapResults(xs, f).Failure? ==>
      exists k :: 0 <= k < |xs| && f(xs[k]) == Failure(MapResults(xs, f).error)
        && forall j :: 0 <= j < k ==> f(xs[j]).Success?
    decreases |xs|
  {
    if |xs| > 0 {
      var init := xs[..|xs| - 1];
      MapResultsMeaning(init, f);
      assert forall k :: 0 <= k < |init| ==> init[k] == xs[k];
      var r := MapResults(xs, f);
      if MapResults(init, f).Failure? {
        var k :| 0 <= k < |init| && f(init[k]) == Failure(MapResults(init, f).error)
          && forall j :: 0 <= j < k ==> f(init[j]).Success?;
        assert f(xs[k]) == Failure(r.error);
      } else if f(xs[|xs| - 1]).Failure? {
        assert forall j :: 0 <= j < |xs| - 1 ==> f(xs[j]).Success?;
      }
    }
  }

  /** One more element: its result is appended, or its error ends the loop. */
  lemma MapResultsSnoc<A, B, E>(xs: seq<A>, x: A, f: A -> Result<B, E>)
    requires MapResults(xs, f).Success?
    ensures MapResults(xs + [x], f) ==
      match f(x)
      case Failure(e) => Failure(e)
      case Success(y) => Success(MapResults(xs, f).value + [y])
  {
    assert (xs + [x])[..|xs|] == xs;
  }

  /** Once the loop has failed, later elements change nothing. */
  lemma {:induction false} MapResultsFailureStays<A, B, E>(xs: seq<A>, ys: seq<A>, f: A -> Result<B, E>)
    requires MapResults(xs, f).Failure?
    ensures MapResults(xs + ys, f) == MapResults(xs, f)
    decreases |ys|
  {
    if |ys| == 0 {
      assert xs + ys == xs;
    } else {
      var init := ys[..|ys| - 1];
      MapResultsFailureStays(xs, init, f);
      assert (xs + ys)[..|xs + ys| - 1] == xs + init;
    }
  }
}

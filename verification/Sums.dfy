/** Sums and means of real sequences. */
module Sums {
  import opened Common
  import opened Numbers

  function Sum(xs: seq<real>): real {
    if xs == [] then 0.0 else Sum(Front(xs)) + Last(xs)
  }

  function Mean(xs: seq<real>): real
    requires xs != []
  {
    Sum(xs) / |xs| as real
  }

  lemma SumSnoc(xs: seq<real>, x: real)
    ensures Sum(xs + [x]) == Sum(xs) + x
  {
    AppendFrontLast(xs, x);
  }

  lemma {:induction false} SumUpdate(xs: seq<real>, k: nat, x: real)
    requires k < |xs|
    ensures Sum(xs[k := x]) == Sum(xs) - xs[k] + x
  {
    if k == |xs| - 1 {
      assert Front(xs[k := x]) == Front(xs);
    } else {
      SumUpdate(Front(xs), k, x);
      assert Front(xs[k := x]) == Front(xs)[k := x];
    }
  }

  lemma {:induction false} SumOfZeros(xs: seq<real>)
    requires forall i :: 0 <= i < |xs| ==> xs[i] == 0.0
    ensures Sum(xs) == 0.0
  {
    if xs != [] {
      SumOfZeros(Front(xs));
    }
  }

  predicate Within(xs: seq<real>, low: real, high: real) {
    forall i :: 0 <= i < |xs| ==> low <= xs[i] <= high
  }

  lemma {:induction false} SumBounds(xs: seq<real>, low: real, high: real)
    requires Within(xs, low, high)
    ensures low * |xs| as real <= Sum(xs) <= high * |xs| as real
  {
    if xs != [] {
      SumBounds(Front(xs), low, high);
      var m := |Front(xs)| as real;
      assert |xs| as real == m + 1.0;
      assert low * (m + 1.0) == low * m + low && high * (m + 1.0) == high * m + high;
    }
  }

  /** A mean lies between any two bounds of its terms. */
  lemma MeanBounds(xs: seq<real>, low: real, high: real)
    requires xs != [] && Within(xs, low, high)
    ensures low <= Mean(xs) <= high
  {
    var n := |xs| as real;
    SumBounds(xs, low, high);
    DivideTimes(Sum(xs), n);
    ScaleOrder(low, Mean(xs), n);
    ScaleOrder(Mean(xs), high, n);
  }

  lemma MeanOfOne(x: real)
    ensures Mean([x]) == x
  {
    assert [x] == [] + [x];
    SumSnoc([], x);
  }
}

/**
 * `rms_dict`: root-mean-square error of predictions against reference data, and
 * the standard deviation of the squared errors. The arrays are one-dimensional
 * here, so numpy's shape test is a length test; the square root is a parameter.
 */
module Rms {
  import opened Wrappers
  import opened PyMath

  function Mean(s: seq<real>): real
    requires |s| > 0
  {
    Sum(s) / (|s| as real)
  }

  /** `np.var`: the mean squared deviation from the mean. */
  function Variance(s: seq<real>): real
    requires |s| > 0
  {
    var m := Mean(s);
    Mean(seq(|s|, k requires 0 <= k < |s| => (s[k] - m) * (s[k] - m)))
  }

  /** `(x_ref - x_pred) ** 2`, element by element. */
  function SquaredErrors(xRef: seq<real>, xPred: seq<real>): (r: seq<real>)
    requires |xRef| == |xPred|
    ensures |r| == |xRef|
    ensures forall k :: 0 <= k < |r| ==> r[k] >= 0.0
  {
    seq(|xRef|, k requires 0 <= k < |xRef| => (xRef[k] - xPred[k]) * (xRef[k] - xPred[k]))
  }

  /** A numpy float: a real number, or the NaN that the mean of an empty array gives. */
  datatype Float = Finite(value: real) | NaN

  /**
   * The two entries of the returned dict, `rmse` and `std`; differing shapes
   * raise ValueError.
   */
  function RmsDict(xRef: seq<real>, xPred: seq<real>, sqrt: real -> real): (r: Result<(Float, Float)>)
    ensures r.Err? <==> |xRef| != |xPred|
    ensures r.Err? ==> r.error == ValueError
    ensures r.Ok? && |xRef| == 0 ==> r.value == (NaN, NaN)
  {
    if |xRef| != |xPred| then Err(ValueError)
    else if |xRef| == 0 then Ok((NaN, NaN))
    else
      var e := SquaredErrors(xRef, xPred);
      Ok((Finite(sqrt(Mean(e))), Finite(sqrt(Variance(e)))))
  }

  lemma {:induction false} SumNonNegative(s: seq<real>)
    requires forall k :: 0 <= k < |s| ==> s[k] >= 0.0
    ensures Sum(s) >= 0.0
    ensures Sum(s) == 0.0 <==> forall k :: 0 <= k < |s| ==> s[k] == 0.0
  {
    if s != [] {
      SumNonNegative(s[1..]);
      assert forall k :: 1 <= k < |s| ==> s[1..][k - 1] == s[k];
    }
  }

  /** The mean squared error is never negative, and vanishes when prediction and reference agree. */
  lemma MeanSquaredErrorNonNegative(xRef: seq<real>, xPred: seq<real>)
    requires |xRef| == |xPred| > 0
    ensures Mean(SquaredErrors(xRef, xPred)) >= 0.0
    ensures xRef == xPred ==> Mean(SquaredErrors(xRef, xPred)) == 0.0
  {
    var e := SquaredErrors(xRef, xPred);
    SumNonNegative(e);
  }

  /** The variance of a sample is never negative. */
  lemma VarianceNonNegative(s: seq<real>)
    requires |s| > 0
    ensures Variance(s) >= 0.0
  {
    var m := Mean(s);
    var d := seq(|s|, k requires 0 <= k < |s| => (s[k] - m) * (s[k] - m));
    SumNonNegative(d);
  }

  /** The square root is only ever taken of a non-negative number. */
  lemma RmsDictSqrtArguments(xRef: seq<real>, xPred: seq<real>, sqrt: real -> real)
    requires |xRef| == |xPred| > 0
    ensures exists mse: real, v: real ::
      (mse >= 0.0 && v >= 0.0 && RmsDict(xRef, xPred, sqrt) == Ok((Finite(sqrt(mse)), Finite(sqrt(v)))))
  {
    var e := SquaredErrors(xRef, xPred);
    MeanSquaredErrorNonNegative(xRef, xPred);
    VarianceNonNegative(e);
    assert RmsDict(xRef, xPred, sqrt) == Ok((Finite(sqrt(Mean(e))), Finite(sqrt(Variance(e)))));
  }

  /** Predictions equal to the reference give sqrt(0) for both entries. */
  lemma RmsDictOfIdentical(x: seq<real>, sqrt: real -> real)
    requires |x| > 0
    ensures RmsDict(x, x, sqrt) == Ok((Finite(sqrt(0.0)), Finite(sqrt(0.0))))
  {
    var e := SquaredErrors(x, x);
    MeanSquaredErrorNonNegative(x, x);
    var d := seq(|e|, k requires 0 <= k < |e| => (e[k] - 0.0) * (e[k] - 0.0));
    SumNonNegative(e);
    SumNonNegative(d);
  }
}

/** `MLEstimator`: a maximum-likelihood normal model of a set of 3-vectors.
    `fit` stores the sample mean, the unbiased covariance and its inverse;
    `evaluate` returns the (unnormalised) Gaussian exponent or its `expf`. */
module MLE {
  import opened LinearAlgebra
  import opened Statistics
  import opened MathLib

  /** The exponent `-0.5 * temp * (cov_inv * temp)` with `temp = x - mean`,
      grouped as C++ groups it: `(-0.5 · temp) · (cov_inv · temp)`. */
  function LogDensity(mean: Vector3, covInv: Matrix3, x: Vector3): real {
    var t := Sub(x, mean);
    Dot(Scale(-0.5, t), Apply(covInv, t))
  }

  /** The exponent is minus one half of the quadratic form of `cov_inv` at `x - mean`. */
  lemma LogDensityIsQuadraticForm(mean: Vector3, covInv: Matrix3, x: Vector3)
    ensures LogDensity(mean, covInv, x) == -0.5 * Dot(Sub(x, mean), Apply(covInv, Sub(x, mean)))
  {
    var t := Sub(x, mean);
    DotScales(-0.5, t, Apply(covInv, t));
  }

  /** The exponent is 0 at the mean. */
  lemma LogDensityAtMean(mean: Vector3, covInv: Matrix3)
    ensures LogDensity(mean, covInv, mean) == 0.0
  {
    var t := Sub(mean, mean);
    SubSelf(covInv, mean);
    var a := Scale(-0.5, t);
    assert a == ZeroVector();
    DotZero(Apply(covInv, t));
  }

  /** With a zero `cov_inv` the exponent is 0 everywhere. */
  lemma LogDensityZeroInverse(mean: Vector3, x: Vector3)
    ensures LogDensity(mean, ZeroMatrix(), x) == 0.0
  {
    var t := Sub(x, mean);
    ApplyZero(ZeroMatrix(), t);
    DotZero(Scale(-0.5, t));
  }

  /** The two cases in which the exponent is 0, in the form the evaluation uses. */
  lemma LogDensityVanishes(mean: Vector3, covInv: Matrix3, x: Vector3)
    ensures x == mean ==> LogDensity(mean, covInv, x) == 0.0
    ensures covInv == ZeroMatrix() ==> LogDensity(mean, covInv, x) == 0.0
  {
    if x == mean {
      LogDensityAtMean(mean, covInv);
    }
    if covInv == ZeroMatrix() {
      LogDensityZeroInverse(mean, x);
    }
  }

  /** The single-sample `evaluate`: the exponent itself when `log`, else its
      exponential, which is positive; at the mean, or with a zero `cov_inv`,
      the value is 0 in log form and 1 otherwise. */
  function Density(mean: Vector3, covInv: Matrix3, x: Vector3, log: bool, exp: real -> real): (r: real)
    ensures IsExp(exp) && !log ==> r > 0.0
    ensures IsExp(exp) && (x == mean || covInv == ZeroMatrix()) ==> r == (if log then 0.0 else 1.0)
  {
    var q := LogDensity(mean, covInv, x);
    LogDensityVanishes(mean, covInv, x);
    assert IsExp(exp) && q == 0.0 ==> exp(q) == 1.0;
    if !log then exp(q) else q
  }

  /** The densities `fit_mle` stores for one time pixel: the model fitted to
      the samples, evaluated (not in log form) at each of them in order. */
  function FittedDensities(samples: seq<Vector3>, exp: real -> real): (y: seq<real>)
    requires |samples| >= 2
    requires IsExp(exp)
    ensures |y| == |samples|
    ensures forall k :: 0 <= k < |y| ==> y[k] > 0.0
  {
    var covInv := Inverse(Covariance(samples));
    seq(|samples|, k requires 0 <= k < |samples| => Density(Mean(samples), covInv, samples[k], false, exp))
  }

  class MLEstimator {
    var n: int
    var mean: Vector3
    var cov: Matrix3
    var covInv: Matrix3

    /** The default constructor: the vector and matrix members are built by
        their own default constructors, which zero them; `n` is left unset
        by the source and is 0 here. */
    constructor()
      ensures n == 0 && mean == ZeroVector() && cov == ZeroMatrix() && covInv == ZeroMatrix()
    {
      n := 0;
      mean := ZeroVector();
      cov := ZeroMatrix();
      covInv := ZeroMatrix();
    }

    /** `fit`: accumulate the mean and the sum of outer products, then form the
        unbiased covariance and invert it. */
    method Fit(data: seq<Vector3>)
      requires |data| >= 2
      modifies this
      ensures n == |data|
      ensures mean == Mean(data)
      ensures cov == Covariance(data)
      ensures covInv == Inverse(cov)
    {
      n := |data|;

      mean := ZeroVector();
      var k := 0;
      while k < n
        invariant 0 <= k <= n == |data|
        invariant mean == Sum(data[..k])
      {
        assert data[..k + 1][..k] == data[..k];
        mean := Add(mean, data[k]);
        k := k + 1;
      }
      assert data[..n] == data;
      mean := Scale(1.0 / (n as real), mean);

      cov := ZeroMatrix();
      k := 0;
      while k < n
        invariant 0 <= k <= n == |data|
        invariant mean == Mean(data)
        invariant cov == OuterSum(data[..k])
      {
        assert data[..k + 1][..k] == data[..k];
        cov := MAdd(cov, Outer(data[k]));
        k := k + 1;
      }
      assert data[..n] == data;
      cov := MScale(1.0 / ((n - 1) as real), MSub(cov, MScale(n as real, Outer(mean))));
      covInv := Inverse(cov);
    }

    /** The two cases in which the exponent is 0, in the form the evaluation uses. */
  lemma LogDensityVanishes(mean: Vector3, covInv: Matrix3, x: Vector3)
    ensures x == mean ==> LogDensity(mean, covInv, x) == 0.0
    ensures covInv == ZeroMatrix() ==> LogDensity(mean, covInv, x) == 0.0
  {
    if x == mean {
      LogDensityAtMean(mean, covInv);
    }
    if covInv == ZeroMatrix() {
      LogDensityZeroInverse(mean, x);
    }
  }

  /** The single-sample `evaluate`. Under the fitted model the exponent is 0
        at the mean, and everywhere when the covariance was singular. */
    function Evaluate(x: Vector3, log: bool, exp: real -> real): (r: real)
      reads this
      ensures log ==> r == -0.5 * Dot(Sub(x, mean), Apply(covInv, Sub(x, mean)))
      ensures IsExp(exp) && !log ==> r > 0.0
      ensures IsExp(exp) && (x == mean || covInv == ZeroMatrix()) ==> r == (if log then 0.0 else 1.0)
    {
      LogDensityIsQuadraticForm(mean, covInv, x);
      Density(mean, covInv, x, log, exp)
    }

    /** The vector `evaluate`: one value per sample, in order. */
    method EvaluateAll(xs: seq<Vector3>, log: bool, exp: real -> real) returns (y: seq<real>)
      ensures |y| == |xs|
      ensures forall k :: 0 <= k < |xs| ==> y[k] == Evaluate(xs[k], log, exp)
    {
      y := seq(|xs|, _ => 0.0);
      if !log {
        for k := 0 to |xs|
          invariant |y| == |xs|
          invariant forall i :: 0 <= i < k ==> y[i] == Evaluate(xs[i], log, exp)
        {
          var temp := Sub(xs[k], mean);
          y := y[k := exp(Dot(Scale(-0.5, temp), Apply(covInv, temp)))];
        }
      } else {
        for k := 0 to |xs|
          invariant |y| == |xs|
          invariant forall i :: 0 <= i < k ==> y[i] == Evaluate(xs[i], log, exp)
        {
          var temp := Sub(xs[k], mean);
          y := y[k := Dot(Scale(-0.5, temp), Apply(covInv, temp))];
        }
      }
    }
  }

  /** Fitting n >= 2 identical samples leaves a zero inverse covariance, so the
      exponent is 0 and the density 1 at every point. */
  lemma IdenticalSamplesDensity(samples: seq<Vector3>, x: Vector3, exp: real -> real)
    requires |samples| >= 2
    requires forall k :: 0 <= k < |samples| ==> samples[k] == samples[0]
    requires IsExp(exp)
    ensures LogDensity(Mean(samples), Inverse(Covariance(samples)), x) == 0.0
    ensures Density(Mean(samples), Inverse(Covariance(samples)), x, false, exp) == 1.0
  {
    IdenticalSamples(samples, samples[0]);
    LogDensityZeroInverse(Mean(samples), x);
  }
}

/** `KDEstimator`: a leave-one-out Gaussian kernel density estimate of a set
    of 3-vectors, with a bandwidth matrix chosen by Scott's rule and the
    densities normalised so that the largest is 1. */
module KDE {
  import opened LinearAlgebra
  import opened Statistics
  import opened MathLib

  // ----- Specification functions -----

  /** The bandwidth `n^(-2/7) / (n-1) · (Σ outerp(x_k) - n · outerp(mean))`. */
  function Bandwidth(data: seq<Vector3>, pow: (real, real) -> real): Matrix3
    requires |data| >= 2
  {
    MScale(pow(|data| as real, -2.0 / 7.0) / ((|data| - 1) as real), ScatterAboutMean(data))
  }

  /** Scott's rule for three dimensions: the bandwidth is `n^(-2/7)` times
      the unbiased covariance that `MLEstimator::fit` computes. */
  lemma BandwidthIsScaledCovariance(data: seq<Vector3>, pow: (real, real) -> real)
    requires |data| >= 2
    ensures Bandwidth(data, pow) == MScale(pow(|data| as real, -2.0 / 7.0), Covariance(data))
  {
    ScaleByQuotient(pow(|data| as real, -2.0 / 7.0), (|data| - 1) as real, ScatterAboutMean(data));
  }

  /** Scaling by `p / d` is scaling by `1 / d` and then by `p`. */
  lemma ScaleByQuotient(p: real, d: real, s: Matrix3)
    requires d != 0.0
    ensures MScale(p / d, s) == MScale(p, MScale(1.0 / d, s))
  {
    QuotientAsProduct(p, d);
    MScaleScale(p, 1.0 / d, p / d, s);
  }

  /** The bandwidth is symmetric. */
  lemma BandwidthSymmetric(data: seq<Vector3>, pow: (real, real) -> real)
    requires |data| >= 2
    ensures Symmetric(Bandwidth(data, pow))
  {
    var s := ScatterAboutMean(data);
    ScatterAboutMeanSymmetric(data);
    SymmetricClosed(pow(|data| as real, -2.0 / 7.0) / ((|data| - 1) as real), s, s);
  }

  lemma QuotientAsProduct(p: real, d: real)
    requires d != 0.0
    ensures p / d == p * (1.0 / d)
  {
  }

  /** `kernel(u) = expf(-0.5 * u * (H_inv * u))`, the member function, with
      the inverse bandwidth passed in. */
  function KernelAt(hInv: Matrix3, u: Vector3, exp: real -> real): (r: real)
    ensures r == exp(-0.5 * Dot(u, Apply(hInv, u)))
    ensures IsExp(exp) ==> r > 0.0
  {
    var q := Dot(Scale(-0.5, u), Apply(hInv, u));
    DotScales(-0.5, u, Apply(hInv, u));
    assert q == -0.5 * Dot(u, Apply(hInv, u));
    exp(q)
  }

  /** The kernel is 1 wherever the quadratic form vanishes. */
  lemma KernelAtUnit(hInv: Matrix3, u: Vector3, exp: real -> real)
    requires IsExp(exp)
    requires Dot(u, Apply(hInv, u)) == 0.0
    ensures KernelAt(hInv, u, exp) == 1.0
  {
    var d := Dot(u, Apply(hInv, u));
    assert -0.5 * d == 0.0;
  }

  /** The kernel is 1 at a zero difference. */
  lemma KernelAtZeroDifference(hInv: Matrix3, exp: real -> real)
    requires IsExp(exp)
    ensures KernelAt(hInv, ZeroVector(), exp) == 1.0
  {
    ApplyZero(hInv, ZeroVector());
    KernelAtUnit(hInv, ZeroVector(), exp);
  }

  /** With a zero inverse bandwidth (a singular bandwidth) the kernel is 1 everywhere. */
  lemma KernelAtZeroInverse(u: Vector3, exp: real -> real)
    requires IsExp(exp)
    ensures KernelAt(ZeroMatrix(), u, exp) == 1.0
  {
    ApplyZero(ZeroMatrix(), u);
    DotZero(u);
    KernelAtUnit(ZeroMatrix(), u, exp);
  }

  /** The Gaussian kernel is even: swapping the two samples does not change it. */
  lemma KernelEven(hInv: Matrix3, a: Vector3, b: Vector3, exp: real -> real)
    ensures KernelAt(hInv, Sub(a, b), exp) == KernelAt(hInv, Sub(b, a), exp)
  {
    var u := Sub(a, b);
    var w := Sub(b, a);
    assert w == Scale(-1.0, u);
    ApplyScalesVector(-1.0, hInv, u);
    var hu := Apply(hInv, u);
    DotScales(-1.0, u, Scale(-1.0, hu));
    DotScales(-1.0, u, hu);
    assert Dot(w, Apply(hInv, w)) == Dot(u, hu);
  }

  /** The matrix `K` that `fit_evaluate` builds: 1 on the diagonal, the kernel
      of `data[i] - data[j]` above it, mirrored below it. */
  function KernelTable(data: seq<Vector3>, hInv: Matrix3, exp: real -> real): (K: seq<seq<real>>)
    ensures |K| == |data|
    ensures forall i :: 0 <= i < |K| ==> |K[i]| == |data|
    ensures forall i :: 0 <= i < |K| ==> K[i][i] == 1.0
    ensures forall i, j :: 0 <= i < |K| && 0 <= j < |K| ==> K[i][j] == K[j][i]
  {
    seq(|data|, i requires 0 <= i < |data| =>
      seq(|data|, j requires 0 <= j < |data| =>
        if i == j then 1.0
        else if i < j then KernelAt(hInv, Sub(data[i], data[j]), exp)
        else KernelAt(hInv, Sub(data[j], data[i]), exp)))
  }

  /** Off the diagonal, every entry of `K` is the kernel of the difference of
      its two samples, in either order. */
  lemma KernelTableIsPairwise(data: seq<Vector3>, hInv: Matrix3, exp: real -> real, i: int, j: int)
    requires 0 <= i < |data| && 0 <= j < |data| && i != j
    ensures KernelTable(data, hInv, exp)[i][j] == KernelAt(hInv, Sub(data[i], data[j]), exp)
  {
    KernelEven(hInv, data[i], data[j], exp);
  }

  /** `Σ row[j]` over `j < m`. */
  function RowSum(row: seq<real>, m: nat): real
    requires m <= |row|
  {
    if m == 0 then 0.0 else RowSum(row, m - 1) + row[m - 1]
  }

  /** `Σ row[j]` over `j < m` with `j != i`: the inner loop of the kernel sum. */
  function SumExcept(row: seq<real>, i: int, m: nat): real
    requires m <= |row|
  {
    if m == 0 then 0.0 else SumExcept(row, i, m - 1) + (if m - 1 != i then row[m - 1] else 0.0)
  }

  /** Leave-one-out: the sum without `j == i` is the full row sum less the diagonal. */
  lemma {:induction false} SumExceptIsRowSumLessDiagonal(row: seq<real>, i: int, m: nat)
    requires m <= |row|
    ensures SumExcept(row, i, m) == RowSum(row, m) - (if 0 <= i < m then row[i] else 0.0)
  {
    if m > 0 {
      SumExceptIsRowSumLessDiagonal(row, i, m - 1);
    }
  }

  /** With positive off-diagonal entries, the sum over two or more columns is positive. */
  lemma {:induction false} SumExceptPositive(row: seq<real>, i: int, m: nat)
    requires m <= |row|
    requires forall j :: 0 <= j < |row| && j != i ==> row[j] > 0.0
    ensures SumExcept(row, i, m) >= 0.0
    ensures m >= 2 || (m == 1 && i != 0) ==> SumExcept(row, i, m) > 0.0
  {
    if m > 0 {
      SumExceptPositive(row, i, m - 1);
    }
  }

  /** `y[i]`, the sum of row `i` of `K` without its diagonal entry. */
  function LooSums(K: seq<seq<real>>): (y: seq<real>)
    requires forall i :: 0 <= i < |K| ==> |K[i]| == |K|
    ensures |y| == |K|
  {
    seq(|K|, i requires 0 <= i < |K| => SumExcept(K[i], i, |K|))
  }

  /** The running maximum `max_d`, started at 0 and scanned in index order. */
  function Peak(y: seq<real>): (d: real)
    ensures d >= 0.0
    ensures forall k :: 0 <= k < |y| ==> y[k] <= d
    ensures d == 0.0 || exists k :: 0 <= k < |y| && y[k] == d
  {
    if |y| == 0 then 0.0
    else
      var p := Peak(y[..|y| - 1]);
      assert forall k :: 0 <= k < |y| - 1 ==> y[..|y| - 1][k] == y[k];
      if y[|y| - 1] > p then y[|y| - 1] else p
  }

  /** The in-place division `y[k] /= max_d`. */
  function Normalised(y: seq<real>, d: real): (z: seq<real>)
    requires d != 0.0
    ensures |z| == |y|
    ensures forall k :: 0 <= k < |y| ==> z[k] * d == y[k]
  {
    seq(|y|, k requires 0 <= k < |y| => y[k] / d)
  }

  /** For n >= 2 samples and a positive kernel, every leave-one-out sum is positive. */
  lemma LooSumsPositive(data: seq<Vector3>, hInv: Matrix3, exp: real -> real)
    requires |data| >= 2
    requires IsExp(exp)
    ensures forall i :: 0 <= i < |data| ==> LooSums(KernelTable(data, hInv, exp))[i] > 0.0
  {
    var K := KernelTable(data, hInv, exp);
    forall i | 0 <= i < |data|
      ensures LooSums(K)[i] > 0.0
    {
      SumExceptPositive(K[i], i, |K|);
    }
  }

  /** `a / d` lies in (0, 1] when `0 < a <= d`. */
  lemma UnitQuotient(a: real, d: real)
    requires 0.0 < a <= d
    ensures 0.0 < a / d <= 1.0
    ensures a == d ==> a / d == 1.0
  {
  }

  /** Dividing positive values by their running maximum puts them in (0, 1],
      and the maximum itself becomes 1. */
  lemma NormalisedByPeak(y: seq<real>)
    requires |y| >= 1
    requires forall k :: 0 <= k < |y| ==> y[k] > 0.0
    ensures Peak(y) > 0.0
    ensures forall k :: 0 <= k < |y| ==> 0.0 < Normalised(y, Peak(y))[k] <= 1.0
    ensures exists k :: 0 <= k < |y| && Normalised(y, Peak(y))[k] == 1.0
  {
    var d := Peak(y);
    assert y[0] <= d;
    var z := Normalised(y, d);
    forall k | 0 <= k < |y|
      ensures 0.0 < z[k] <= 1.0
    {
      UnitQuotient(y[k], d);
    }
    var m :| 0 <= m < |y| && y[m] == d;
    UnitQuotient(y[m], d);
    assert z[m] == 1.0;
  }

  /** The leave-one-out sums `fit_evaluate` computes before normalising. */
  function KdeSums(data: seq<Vector3>, pow: (real, real) -> real, exp: real -> real): (y: seq<real>)
    requires |data| >= 2
    requires IsExp(exp)
    ensures |y| == |data|
    ensures forall k :: 0 <= k < |y| ==> y[k] > 0.0
  {
    var hInv := Inverse(Bandwidth(data, pow));
    LooSumsPositive(data, hInv, exp);
    LooSums(KernelTable(data, hInv, exp))
  }

  /** The densities `fit_evaluate` returns for n >= 2 samples. */
  function KdeDensities(data: seq<Vector3>, pow: (real, real) -> real, exp: real -> real): (r: seq<real>)
    requires |data| >= 2
    requires IsExp(exp)
    ensures |r| == |data|
    ensures forall k :: 0 <= k < |r| ==> 0.0 < r[k] <= 1.0
    ensures exists k :: 0 <= k < |r| && r[k] == 1.0
  {
    var y := KdeSums(data, pow, exp);
    NormalisedByPeak(y);
    Normalised(y, Peak(y))
  }

  /** A single sample: its only leave-one-out sum is 0, so `max_d` is 0 and the
      normalisation of the source divides by zero. */
  lemma SingleSampleDegenerate(x: Vector3, hInv: Matrix3, exp: real -> real)
    ensures LooSums(KernelTable([x], hInv, exp)) == [0.0]
    ensures Peak(LooSums(KernelTable([x], hInv, exp))) == 0.0
  {
    var y := LooSums(KernelTable([x], hInv, exp));
    assert y[0] == SumExcept(KernelTable([x], hInv, exp)[0], 0, 1) == 0.0;
    assert y == [0.0];
    assert y[..0] == [];
  }

  // ----- The loops of fit_evaluate -----

  /** The nested loop that fills `K`: each pair `i < j` is computed once and
      mirrored. */
  method KernelMatrix(data: seq<Vector3>, hInv: Matrix3, exp: real -> real) returns (K: seq<seq<real>>)
    ensures K == KernelTable(data, hInv, exp)
  {
    var n := |data|;
    K := seq(n, _ => seq(n, _ => 0.0));
    ghost var T := KernelTable(data, hInv, exp);
    for i := 0 to n
      invariant |K| == n && forall r :: 0 <= r < n ==> |K[r]| == n
      invariant forall r, c :: 0 <= r < n && 0 <= c < n && (r < i || c < i) ==> K[r][c] == T[r][c]
    {
      K := K[i := K[i][i := 1.0]];
      for j := i + 1 to n
        invariant |K| == n && forall r :: 0 <= r < n ==> |K[r]| == n
        invariant forall r, c :: 0 <= r < n && 0 <= c < n && (r < i || c < i) ==> K[r][c] == T[r][c]
        invariant forall c :: i <= c < j ==> K[i][c] == T[i][c]
        invariant forall r :: i < r < j ==> K[r][i] == T[r][i]
      {
        K := K[i := K[i][j := KernelAt(hInv, Sub(data[i], data[j]), exp)]];
        K := K[j := K[j][i := K[i][j]]];
      }
    }
    assert forall r :: 0 <= r < n ==> K[r] == T[r];
  }

  /** The double loop `y[i] += K[i][j]` for `i != j`. */
  method LeaveOneOutSums(K: seq<seq<real>>) returns (y: seq<real>)
    requires forall i :: 0 <= i < |K| ==> |K[i]| == |K|
    ensures y == LooSums(K)
  {
    var n := |K|;
    y := seq(n, _ => 0.0);
    for i := 0 to n
      invariant |y| == n
      invariant forall r :: 0 <= r < i ==> y[r] == SumExcept(K[r], r, n)
      invariant forall r :: i <= r < n ==> y[r] == 0.0
    {
      for j := 0 to n
        invariant |y| == n
        invariant forall r :: 0 <= r < i ==> y[r] == SumExcept(K[r], r, n)
        invariant forall r :: i < r < n ==> y[r] == 0.0
        invariant y[i] == SumExcept(K[i], i, j)
      {
        if i != j {
          y := y[i := y[i] + K[i][j]];
        }
      }
    }
  }

  /** The loop that finds `max_d`. */
  method MaxDensity(y: seq<real>) returns (maxD: real)
    ensures maxD == Peak(y)
  {
    maxD := 0.0;
    for k := 0 to |y|
      invariant maxD == Peak(y[..k])
    {
      assert y[..k + 1][..k] == y[..k];
      if y[k] > maxD {
        maxD := y[k];
      }
    }
    assert y[..|y|] == y;
  }

  /** The loop `y[k] /= max_d`. */
  method Normalise(y: seq<real>, maxD: real) returns (z: seq<real>)
    requires maxD != 0.0
    ensures z == Normalised(y, maxD)
  {
    z := y;
    for k := 0 to |z|
      invariant |z| == |y|
      invariant forall i :: 0 <= i < k ==> z[i] == y[i] / maxD
      invariant forall i :: k <= i < |z| ==> z[i] == y[i]
    {
      z := z[k := z[k] / maxD];
    }
  }

  class KDEstimator {
    var n: int
    var H: Matrix3
    var HInv: Matrix3

    /** The empty constructor: the matrices are zeroed by their own default
        constructors; `n` is left unset by the source and is 0 here. */
    constructor()
      ensures n == 0 && H == ZeroMatrix() && HInv == ZeroMatrix()
    {
      n := 0;
      H := ZeroMatrix();
      HInv := ZeroMatrix();
    }

    /** The fitting half of `fit_evaluate`: the sample mean, then Scott's-rule
        bandwidth `H` over the unbiased covariance, and its inverse. */
    method FitBandwidth(data: seq<Vector3>, pow: (real, real) -> real)
      requires |data| >= 2
      modifies this
      ensures n == |data|
      ensures H == Bandwidth(data, pow)
      ensures HInv == Inverse(H)
    {
      n := |data|;

      var mean := ZeroVector();
      var k := 0;
      while k < n
        invariant 0 <= k <= n == |data|
        invariant mean == Sum(data[..k])
      {
        assert data[..k + 1][..k] == data[..k];
        mean := Add(mean, data[k]);
        k := k + 1;
      }
      assert data[..n] == data;
      mean := Scale(1.0 / (n as real), mean);

      H := ZeroMatrix();
      k := 0;
      while k < n
        invariant 0 <= k <= n == |data|
        invariant mean == Mean(data)
        invariant H == OuterSum(data[..k])
      {
        assert data[..k + 1][..k] == data[..k];
        H := MAdd(H, Outer(data[k]));
        k := k + 1;
      }
      assert data[..n] == data;
      H := MScale(pow(n as real, -2.0 / 7.0) / ((n - 1) as real), MSub(H, MScale(n as real, Outer(mean))));
      HInv := Inverse(H);
    }

    /** `fit_evaluate`: fit the bandwidth, then return one normalised
        leave-one-out density per sample, in input order. */
    method FitEvaluate(data: seq<Vector3>, pow: (real, real) -> real, exp: real -> real) returns (y: seq<real>)
      requires |data| >= 2
      requires IsExp(exp)
      modifies this
      ensures n == |data|
      ensures H == Bandwidth(data, pow)
      ensures HInv == Inverse(H)
      ensures y == KdeDensities(data, pow, exp)
    {
      FitBandwidth(data, pow);
      var K := KernelMatrix(data, HInv, exp);
      y := LeaveOneOutSums(K);
      assert y == KdeSums(data, pow, exp);
      var maxD := MaxDensity(y);
      NormalisedByPeak(y);
      y := Normalise(y, maxD);
    }
  }
}

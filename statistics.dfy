/** Sample statistics shared by the two estimators: the accumulated sum, the
    sum of outer products, the mean and the unbiased sample covariance, each
    computed exactly as the fitting loops of `MLEstimator::fit` and
    `KDEstimator::fit_evaluate` compute them. */
module Statistics {
  import opened LinearAlgebra

  /** `Σ s[k]`, accumulated from the zero vector in index order. */
  function Sum(s: seq<Vector3>): Vector3 {
    if |s| == 0 then ZeroVector() else Add(Sum(s[..|s| - 1]), s[|s| - 1])
  }

  /** `Σ outerp(s[k])`, accumulated from the zero matrix in index order. */
  function OuterSum(s: seq<Vector3>): Matrix3 {
    if |s| == 0 then ZeroMatrix() else MAdd(OuterSum(s[..|s| - 1]), Outer(s[|s| - 1]))
  }

  /** `Σ outerp(s[k] - m)`: the scatter of the samples about a centre `m`. */
  function CenteredScatter(s: seq<Vector3>, m: Vector3): Matrix3 {
    if |s| == 0 then ZeroMatrix() else MAdd(CenteredScatter(s[..|s| - 1], m), Outer(Sub(s[|s| - 1], m)))
  }

  /** `1/n · Σ s[k]`: n copies of the mean add up to the sum. */
  function Mean(s: seq<Vector3>): (m: Vector3)
    requires |s| >= 1
    ensures Scale(|s| as real, m) == Sum(s)
  {
    var n := |s| as real;
    ScaleScale(n, 1.0 / n, Sum(s));
    assert n * (1.0 / n) == 1.0;
    Scale(1.0 / n, Sum(s))
  }

  /** The matrix `Σ outerp(s[k]) - n · outerp(mean)` that both estimators scale. */
  function ScatterAboutMean(s: seq<Vector3>): Matrix3
    requires |s| >= 1
  {
    MSub(OuterSum(s), MScale(|s| as real, Outer(Mean(s))))
  }

  /** The unbiased sample covariance `1/(n-1) · (Σ outerp(x_k) - n · outerp(mean))`. */
  function Covariance(s: seq<Vector3>): Matrix3
    requires |s| >= 2
  {
    MScale(1.0 / ((|s| - 1) as real), ScatterAboutMean(s))
  }

  // ----- The unbiased covariance is the scatter about the mean -----

  /** `O - S mᵀ - m Sᵀ + n m mᵀ`, entry by entry; it equals `Σ outerp(x_k - m)`
      when `O = Σ outerp(x_k)`, `S = Σ x_k` and n is the number of samples. */
  function Expansion(o: Matrix3, s: Vector3, n: real, m: Vector3): Matrix3 {
    Matrix3(Vector3(o.x.x - s.x * m.x - m.x * s.x + n * (m.x * m.x), o.x.y - s.x * m.y - m.x * s.y + n * (m.x * m.y), o.x.z - s.x * m.z - m.x * s.z + n * (m.x * m.z)),
            Vector3(o.y.x - s.y * m.x - m.y * s.x + n * (m.y * m.x), o.y.y - s.y * m.y - m.y * s.y + n * (m.y * m.y), o.y.z - s.y * m.z - m.y * s.z + n * (m.y * m.z)),
            Vector3(o.z.x - s.z * m.x - m.z * s.x + n * (m.z * m.x), o.z.y - s.z * m.y - m.z * s.y + n * (m.z * m.y), o.z.z - s.z * m.z - m.z * s.z + n * (m.z * m.z)))
  }

  // One lemma per entry keeps each arithmetic obligation small.

  lemma ExpansionStepXX(o: Matrix3, s: Vector3, n: real, x: Vector3, m: Vector3)
    ensures Expansion(MAdd(o, Outer(x)), Add(s, x), n + 1.0, m).x.x == Expansion(o, s, n, m).x.x + Outer(Sub(x, m)).x.x
  {
  }

  lemma ExpansionStepXY(o: Matrix3, s: Vector3, n: real, x: Vector3, m: Vector3)
    ensures Expansion(MAdd(o, Outer(x)), Add(s, x), n + 1.0, m).x.y == Expansion(o, s, n, m).x.y + Outer(Sub(x, m)).x.y
  {
  }

  lemma ExpansionStepXZ(o: Matrix3, s: Vector3, n: real, x: Vector3, m: Vector3)
    ensures Expansion(MAdd(o, Outer(x)), Add(s, x), n + 1.0, m).x.z == Expansion(o, s, n, m).x.z + Outer(Sub(x, m)).x.z
  {
  }

  lemma ExpansionStepYX(o: Matrix3, s: Vector3, n: real, x: Vector3, m: Vector3)
    ensures Expansion(MAdd(o, Outer(x)), Add(s, x), n + 1.0, m).y.x == Expansion(o, s, n, m).y.x + Outer(Sub(x, m)).y.x
  {
  }

  lemma ExpansionStepYY(o: Matrix3, s: Vector3, n: real, x: Vector3, m: Vector3)
    ensures Expansion(MAdd(o, Outer(x)), Add(s, x), n + 1.0, m).y.y == Expansion(o, s, n, m).y.y + Outer(Sub(x, m)).y.y
  {
  }

  lemma ExpansionStepYZ(o: Matrix3, s: Vector3, n: real, x: Vector3, m: Vector3)
    ensures Expansion(MAdd(o, Outer(x)), Add(s, x), n + 1.0, m).y.z == Expansion(o, s, n, m).y.z + Outer(Sub(x, m)).y.z
  {
  }

  lemma ExpansionStepZX(o: Matrix3, s: Vector3, n: real, x: Vector3, m: Vector3)
    ensures Expansion(MAdd(o, Outer(x)), Add(s, x), n + 1.0, m).z.x == Expansion(o, s, n, m).z.x + Outer(Sub(x, m)).z.x
  {
  }

  lemma ExpansionStepZY(o: Matrix3, s: Vector3, n: real, x: Vector3, m: Vector3)
    ensures Expansion(MAdd(o, Outer(x)), Add(s, x), n + 1.0, m).z.y == Expansion(o, s, n, m).z.y + Outer(Sub(x, m)).z.y
  {
  }

  lemma ExpansionStepZZ(o: Matrix3, s: Vector3, n: real, x: Vector3, m: Vector3)
    ensures Expansion(MAdd(o, Outer(x)), Add(s, x), n + 1.0, m).z.z == Expansion(o, s, n, m).z.z + Outer(Sub(x, m)).z.z
  {
  }

  /** Adding one sample `x` adds `outerp(x - m)` to the expansion. */
  lemma ExpansionStep(o: Matrix3, s: Vector3, n: real, x: Vector3, m: Vector3)
    ensures Expansion(MAdd(o, Outer(x)), Add(s, x), n + 1.0, m) == MAdd(Expansion(o, s, n, m), Outer(Sub(x, m)))
  {
    ExpansionStepXX(o, s, n, x, m);
    ExpansionStepXY(o, s, n, x, m);
    ExpansionStepXZ(o, s, n, x, m);
    ExpansionStepYX(o, s, n, x, m);
    ExpansionStepYY(o, s, n, x, m);
    ExpansionStepYZ(o, s, n, x, m);
    ExpansionStepZX(o, s, n, x, m);
    ExpansionStepZY(o, s, n, x, m);
    ExpansionStepZZ(o, s, n, x, m);
  }

  /** `Σ outerp(x_k - m) = Σ outerp(x_k) - (Σ x_k) mᵀ - m (Σ x_k)ᵀ + n m mᵀ` for every centre `m`. */
  lemma {:induction false} CenteredScatterExpansion(s: seq<Vector3>, m: Vector3)
    ensures CenteredScatter(s, m) == Expansion(OuterSum(s), Sum(s), |s| as real, m)
  {
    if |s| > 0 {
      var init := s[..|s| - 1];
      CenteredScatterExpansion(init, m);
      ExpansionStep(OuterSum(init), Sum(init), |init| as real, s[|s| - 1], m);
    }
  }

  lemma ExpansionAtMeanXX(o: Matrix3, n: real, m: Vector3)
    ensures Expansion(o, Scale(n, m), n, m).x.x == MSub(o, MScale(n, Outer(m))).x.x
  {
  }

  lemma ExpansionAtMeanXY(o: Matrix3, n: real, m: Vector3)
    ensures Expansion(o, Scale(n, m), n, m).x.y == MSub(o, MScale(n, Outer(m))).x.y
  {
  }

  lemma ExpansionAtMeanXZ(o: Matrix3, n: real, m: Vector3)
    ensures Expansion(o, Scale(n, m), n, m).x.z == MSub(o, MScale(n, Outer(m))).x.z
  {
  }

  lemma ExpansionAtMeanYX(o: Matrix3, n: real, m: Vector3)
    ensures Expansion(o, Scale(n, m), n, m).y.x == MSub(o, MScale(n, Outer(m))).y.x
  {
  }

  lemma ExpansionAtMeanYY(o: Matrix3, n: real, m: Vector3)
    ensures Expansion(o, Scale(n, m), n, m).y.y == MSub(o, MScale(n, Outer(m))).y.y
  {
  }

  lemma ExpansionAtMeanYZ(o: Matrix3, n: real, m: Vector3)
    ensures Expansion(o, Scale(n, m), n, m).y.z == MSub(o, MScale(n, Outer(m))).y.z
  {
  }

  lemma ExpansionAtMeanZX(o: Matrix3, n: real, m: Vector3)
    ensures Expansion(o, Scale(n, m), n, m).z.x == MSub(o, MScale(n, Outer(m))).z.x
  {
  }

  lemma ExpansionAtMeanZY(o: Matrix3, n: real, m: Vector3)
    ensures Expansion(o, Scale(n, m), n, m).z.y == MSub(o, MScale(n, Outer(m))).z.y
  {
  }

  lemma ExpansionAtMeanZZ(o: Matrix3, n: real, m: Vector3)
    ensures Expansion(o, Scale(n, m), n, m).z.z == MSub(o, MScale(n, Outer(m))).z.z
  {
  }

  /** At the mean, `S = n m` collapses the expansion to `O - n m mᵀ`. */
  lemma ExpansionAtMean(o: Matrix3, n: real, m: Vector3)
    ensures Expansion(o, Scale(n, m), n, m) == MSub(o, MScale(n, Outer(m)))
  {
    ExpansionAtMeanXX(o, n, m);
    ExpansionAtMeanXY(o, n, m);
    ExpansionAtMeanXZ(o, n, m);
    ExpansionAtMeanYX(o, n, m);
    ExpansionAtMeanYY(o, n, m);
    ExpansionAtMeanYZ(o, n, m);
    ExpansionAtMeanZX(o, n, m);
    ExpansionAtMeanZY(o, n, m);
    ExpansionAtMeanZZ(o, n, m);
  }

  /** `Σ outerp(x_k) - n · outerp(mean) = Σ outerp(x_k - mean)`. */
  lemma ScatterAboutMeanIsCentered(s: seq<Vector3>)
    requires |s| >= 1
    ensures ScatterAboutMean(s) == CenteredScatter(s, Mean(s))
  {
    CenteredScatterExpansion(s, Mean(s));
    ExpansionAtMean(OuterSum(s), |s| as real, Mean(s));
  }

  /** The covariance `fit` computes is the unbiased sample covariance
      `1/(n-1) · Σ outerp(x_k - mean)` its comment names. */
  lemma CovarianceIsUnbiased(s: seq<Vector3>)
    requires |s| >= 2
    ensures Covariance(s) == MScale(1.0 / ((|s| - 1) as real), CenteredScatter(s, Mean(s)))
  {
    ScatterAboutMeanIsCentered(s);
  }

  // ----- Symmetry -----

  lemma {:induction false} OuterSumSymmetric(s: seq<Vector3>)
    ensures Symmetric(OuterSum(s))
  {
    if |s| > 0 {
      OuterSumSymmetric(s[..|s| - 1]);
      OuterSymmetric(s[|s| - 1]);
      SymmetricClosed(0.0, OuterSum(s[..|s| - 1]), Outer(s[|s| - 1]));
    }
  }

  lemma ScatterAboutMeanSymmetric(s: seq<Vector3>)
    requires |s| >= 1
    ensures Symmetric(ScatterAboutMean(s))
  {
    OuterSumSymmetric(s);
    OuterSymmetric(Mean(s));
    SymmetricClosed(|s| as real, Outer(Mean(s)), Outer(Mean(s)));
    SymmetricClosed(0.0, OuterSum(s), MScale(|s| as real, Outer(Mean(s))));
  }

  lemma CovarianceSymmetric(s: seq<Vector3>)
    requires |s| >= 2
    ensures Symmetric(Covariance(s))
  {
    ScatterAboutMeanSymmetric(s);
    SymmetricClosed(1.0 / ((|s| - 1) as real), ScatterAboutMean(s), ScatterAboutMean(s));
  }

  // ----- Identical samples -----

  lemma {:induction false} SumOfCopies(s: seq<Vector3>, x: Vector3)
    requires forall k :: 0 <= k < |s| ==> s[k] == x
    ensures Sum(s) == Scale(|s| as real, x)
  {
    if |s| > 0 {
      SumOfCopies(s[..|s| - 1], x);
      assert Add(Scale((|s| - 1) as real, x), x) == Scale(|s| as real, x);
    }
  }

  lemma {:induction false} ScatterOfCopies(s: seq<Vector3>, x: Vector3)
    requires forall k :: 0 <= k < |s| ==> s[k] == x
    ensures CenteredScatter(s, x) == ZeroMatrix()
  {
    if |s| > 0 {
      ScatterOfCopies(s[..|s| - 1], x);
      assert Sub(x, x) == ZeroVector();
    }
  }

  lemma UnitScale(t: real, x: Vector3)
    requires t == 1.0
    ensures Scale(t, x) == x
  {
  }

  lemma MeanOfCopies(s: seq<Vector3>, x: Vector3)
    requires |s| >= 1
    requires forall k :: 0 <= k < |s| ==> s[k] == x
    ensures Mean(s) == x
  {
    var n := |s| as real;
    SumOfCopies(s, x);
    ScaleScale(1.0 / n, n, x);
    UnitScale(1.0 / n * n, x);
  }

  lemma ZeroScale(t: real)
    ensures MScale(t, ZeroMatrix()) == ZeroMatrix()
  {
  }

  /** n >= 2 identical samples have that sample as mean and a zero covariance,
      whose inverse is therefore the zero matrix. */
  lemma IdenticalSamples(s: seq<Vector3>, x: Vector3)
    requires |s| >= 2
    requires forall k :: 0 <= k < |s| ==> s[k] == x
    ensures Mean(s) == x
    ensures Covariance(s) == ZeroMatrix()
    ensures Inverse(Covariance(s)) == ZeroMatrix()
  {
    MeanOfCopies(s, x);
    CovarianceIsUnbiased(s);
    ScatterOfCopies(s, x);
    ZeroScale(1.0 / ((|s| - 1) as real));
    FactoryInverses();
  }
}

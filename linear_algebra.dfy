/** Fixed-size three-dimensional linear algebra over exact reals.

    A `Vector3` is three components; a `Matrix3` is stored as three ROW
    vectors `x`, `y`, `z`, so `Apply(M, u)` takes the dot product of each
    row with `u`. Every operation returns a new value. */
module LinearAlgebra {

  datatype Vector3 = Vector3(x: real, y: real, z: real)

  datatype Matrix3 = Matrix3(x: Vector3, y: Vector3, z: Vector3)

  // ----- Vector3 -----

  /** `Vector3::Zeros()`; also what the default constructor builds. */
  function ZeroVector(): Vector3 {
    Vector3(0.0, 0.0, 0.0)
  }

  /** `Vector3::Ones()`. */
  function OnesVector(): Vector3 {
    Vector3(1.0, 1.0, 1.0)
  }

  function Add(u: Vector3, v: Vector3): Vector3 {
    Vector3(u.x + v.x, u.y + v.y, u.z + v.z)
  }

  function Sub(u: Vector3, v: Vector3): Vector3 {
    Vector3(u.x - v.x, u.y - v.y, u.z - v.z)
  }

  /** The inner product `u * v`. */
  function Dot(u: Vector3, v: Vector3): real {
    u.x * v.x + u.y * v.y + u.z * v.z
  }

  /** The scalar product `a * u`. */
  function Scale(a: real, u: Vector3): Vector3 {
    Vector3(a * u.x, a * u.y, a * u.z)
  }

  /** The outer product `u uᵀ` (the free function `outerp`). */
  function Outer(u: Vector3): Matrix3 {
    Matrix3(Vector3(u.x * u.x, u.x * u.y, u.x * u.z),
            Vector3(u.y * u.x, u.y * u.y, u.y * u.z),
            Vector3(u.z * u.x, u.z * u.y, u.z * u.z))
  }

  // ----- Matrix3 -----

  /** `Matrix3::Zeros()`; also what the default constructor builds. */
  function ZeroMatrix(): Matrix3 {
    Matrix3(ZeroVector(), ZeroVector(), ZeroVector())
  }

  /** `Matrix3::Ones()`. */
  function OnesMatrix(): Matrix3 {
    Matrix3(OnesVector(), OnesVector(), OnesVector())
  }

  /** `Matrix3::Eye()`. */
  function Eye(): Matrix3 {
    Matrix3(Vector3(1.0, 0.0, 0.0), Vector3(0.0, 1.0, 0.0), Vector3(0.0, 0.0, 1.0))
  }

  /** The matrix-vector product `M * u`. */
  function Apply(m: Matrix3, u: Vector3): Vector3 {
    Vector3(Dot(m.x, u), Dot(m.y, u), Dot(m.z, u))
  }

  function MScale(a: real, m: Matrix3): Matrix3 {
    Matrix3(Scale(a, m.x), Scale(a, m.y), Scale(a, m.z))
  }

  function MAdd(a: Matrix3, b: Matrix3): Matrix3 {
    Matrix3(Add(a.x, b.x), Add(a.y, b.y), Add(a.z, b.z))
  }

  function MSub(a: Matrix3, b: Matrix3): Matrix3 {
    Matrix3(Sub(a.x, b.x), Sub(a.y, b.y), Sub(a.z, b.z))
  }

  /** The determinant, expanded along the first row as `inverse` computes it. */
  function Det(m: Matrix3): real {
    m.x.x * (m.y.y * m.z.z - m.y.z * m.z.y)
    - m.x.y * (m.y.x * m.z.z - m.y.z * m.z.x)
    + m.x.z * (m.y.x * m.z.y - m.y.y * m.z.x)
  }

  /** The adjugate (transposed cofactor matrix) that `inverse` scales by 1/det. */
  function Adjugate(m: Matrix3): Matrix3 {
    Matrix3(Vector3(m.y.y * m.z.z - m.y.z * m.z.y, m.x.z * m.z.y - m.x.y * m.z.z, m.x.y * m.y.z - m.x.z * m.y.y),
            Vector3(m.y.z * m.z.x - m.y.x * m.z.z, m.x.x * m.z.z - m.x.z * m.z.x, m.x.z * m.y.x - m.x.x * m.y.z),
            Vector3(m.y.x * m.z.y - m.y.y * m.z.x, m.x.y * m.z.x - m.x.x * m.z.y, m.x.x * m.y.y - m.x.y * m.y.x))
  }

  /** `Matrix3::inverse()`: the cofactor formula, or the zero matrix when the
      determinant is exactly 0. */
  function Inverse(m: Matrix3): Matrix3 {
    var det := Det(m);
    if det == 0.0 then ZeroMatrix() else MScale(1.0 / det, Adjugate(m))
  }

  /** Entry (r, c) of a matrix, rows and columns numbered 0..2. */
  function Entry(m: Matrix3, r: int, c: int): real
    requires 0 <= r < 3 && 0 <= c < 3
  {
    var row := if r == 0 then m.x else if r == 1 then m.y else m.z;
    if c == 0 then row.x else if c == 1 then row.y else row.z
  }

  /** The matrix equals its transpose. */
  predicate Symmetric(m: Matrix3) {
    m.x.y == m.y.x && m.x.z == m.z.x && m.y.z == m.z.y
  }

  // ----- Properties of the factories -----

  lemma FactoryEntries()
    ensures ZeroVector().x == 0.0 && ZeroVector().y == 0.0 && ZeroVector().z == 0.0
    ensures OnesVector().x == 1.0 && OnesVector().y == 1.0 && OnesVector().z == 1.0
    ensures forall r, c :: 0 <= r < 3 && 0 <= c < 3 ==> Entry(ZeroMatrix(), r, c) == 0.0
    ensures forall r, c :: 0 <= r < 3 && 0 <= c < 3 ==> Entry(OnesMatrix(), r, c) == 1.0
    ensures forall r, c :: 0 <= r < 3 && 0 <= c < 3 ==> Entry(Eye(), r, c) == if r == c then 1.0 else 0.0
  {
  }

  lemma EyeIsIdentity(u: Vector3)
    ensures Apply(Eye(), u) == u
  {
  }

  lemma FactoryInverses()
    ensures Inverse(Eye()) == Eye()
    ensures Det(ZeroMatrix()) == 0.0 && Inverse(ZeroMatrix()) == ZeroMatrix()
    ensures Det(OnesMatrix()) == 0.0 && Inverse(OnesMatrix()) == ZeroMatrix()
  {
    assert Det(Eye()) == 1.0;
    assert Adjugate(Eye()) == Eye();
    assert MScale(1.0, Eye()) == Eye();
  }

  // ----- Algebraic properties of the operators -----

  lemma OuterSymmetric(u: Vector3)
    ensures Symmetric(Outer(u))
    ensures forall r, c :: 0 <= r < 3 && 0 <= c < 3 ==> Entry(Outer(u), r, c) == Entry(Outer(u), c, r)
  {
  }

  /** On scalars: with `w = (p q r)ᵀ (p q r) (a b c)ᵀ`, `(a b c) w` is a square. */
  lemma SquareOfSum(a: real, b: real, c: real, p: real, q: real, r: real,
                    w0: real, w1: real, w2: real, d: real, t: real)
    requires w0 == (p * p) * a + (p * q) * b + (p * r) * c
    requires w1 == (q * p) * a + (q * q) * b + (q * r) * c
    requires w2 == (r * p) * a + (r * q) * b + (r * r) * c
    requires d == a * w0 + b * w1 + c * w2
    requires t == a * p + b * q + c * r
    ensures d == t * t
  {
  }

  lemma SquareNonNegative(t: real)
    ensures t * t >= 0.0
  {
  }

  /** The quadratic form of an outer product is a square, hence never negative. */
  lemma OuterQuadraticForm(u: Vector3, v: Vector3)
    ensures Dot(u, Apply(Outer(v), u)) == Dot(u, v) * Dot(u, v)
    ensures Dot(u, Apply(Outer(v), u)) >= 0.0
  {
    var w := Apply(Outer(v), u);
    SquareOfSum(u.x, u.y, u.z, v.x, v.y, v.z, w.x, w.y, w.z, Dot(u, w), Dot(u, v));
    SquareNonNegative(Dot(u, v));
  }

  lemma ApplyDistributes(a: Matrix3, b: Matrix3, u: Vector3)
    ensures Apply(MAdd(a, b), u) == Add(Apply(a, u), Apply(b, u))
  {
  }

  lemma ScaleSum(c: real, a0: real, a1: real, a2: real, u0: real, u1: real, u2: real)
    ensures (c * a0) * u0 + (c * a1) * u1 + (c * a2) * u2 == c * (a0 * u0 + a1 * u1 + a2 * u2)
    ensures a0 * (c * u0) + a1 * (c * u1) + a2 * (c * u2) == c * (a0 * u0 + a1 * u1 + a2 * u2)
  {
  }

  lemma DotScales(c: real, u: Vector3, v: Vector3)
    ensures Dot(Scale(c, u), v) == c * Dot(u, v)
    ensures Dot(u, Scale(c, v)) == c * Dot(u, v)
  {
    ScaleSum(c, u.x, u.y, u.z, v.x, v.y, v.z);
  }

  lemma ScaleApplyEntries(c: real, m: Matrix3, u: Vector3)
    ensures Scale(c, Apply(m, u)) == Vector3(c * Dot(m.x, u), c * Dot(m.y, u), c * Dot(m.z, u))
  {
  }

  lemma ApplyScaledMatrixEntries(c: real, m: Matrix3, u: Vector3)
    ensures Apply(MScale(c, m), u) == Vector3(Dot(Scale(c, m.x), u), Dot(Scale(c, m.y), u), Dot(Scale(c, m.z), u))
  {
  }

  lemma ApplyScaledVectorEntries(c: real, m: Matrix3, u: Vector3)
    ensures Apply(m, Scale(c, u)) == Vector3(Dot(m.x, Scale(c, u)), Dot(m.y, Scale(c, u)), Dot(m.z, Scale(c, u)))
  {
  }

  lemma ApplyScalesMatrix(c: real, m: Matrix3, u: Vector3)
    ensures Apply(MScale(c, m), u) == Scale(c, Apply(m, u))
  {
    ScaleApplyEntries(c, m, u);
    ApplyScaledMatrixEntries(c, m, u);
    DotScales(c, m.x, u);
    DotScales(c, m.y, u);
    DotScales(c, m.z, u);
  }

  lemma ApplyScalesVector(c: real, m: Matrix3, u: Vector3)
    ensures Apply(m, Scale(c, u)) == Scale(c, Apply(m, u))
  {
    ScaleApplyEntries(c, m, u);
    ApplyScaledVectorEntries(c, m, u);
    DotScales(c, m.x, u);
    DotScales(c, m.y, u);
    DotScales(c, m.z, u);
  }

  lemma SubSelf(a: Matrix3, u: Vector3)
    ensures MSub(a, a) == ZeroMatrix()
    ensures Sub(u, u) == ZeroVector()
  {
  }

  lemma ApplyZero(m: Matrix3, u: Vector3)
    ensures Apply(m, ZeroVector()) == ZeroVector()
    ensures Apply(ZeroMatrix(), u) == ZeroVector()
  {
  }

  lemma DotZero(u: Vector3)
    ensures Dot(u, ZeroVector()) == 0.0
    ensures Dot(ZeroVector(), u) == 0.0
  {
  }

  lemma ScaleScale(a: real, b: real, u: Vector3)
    ensures Scale(a, Scale(b, u)) == Scale(a * b, u)
  {
  }

  /** Scaling by `b` and then by `a` is scaling by their product `c`. */
  lemma MScaleScale(a: real, b: real, c: real, m: Matrix3)
    requires c == a * b
    ensures MScale(a, MScale(b, m)) == MScale(c, m)
  {
    ScaleScale(a, b, m.x);
    ScaleScale(a, b, m.y);
    ScaleScale(a, b, m.z);
  }

  /** Sums, differences and multiples of symmetric matrices are symmetric. */
  lemma SymmetricClosed(t: real, a: Matrix3, b: Matrix3)
    requires Symmetric(a) && Symmetric(b)
    ensures Symmetric(MAdd(a, b)) && Symmetric(MSub(a, b)) && Symmetric(MScale(t, a))
  {
  }

  // ----- Correctness of the cofactor inverse -----

  /** Row vector times matrix: `rᵀ B`. */
  function RowTimes(r: Vector3, b: Matrix3): Vector3 {
    Vector3(r.x * b.x.x + r.y * b.y.x + r.z * b.z.x,
            r.x * b.x.y + r.y * b.y.y + r.z * b.z.y,
            r.x * b.x.z + r.y * b.y.z + r.z * b.z.z)
  }

  /** The matrix product: row r of `a b` is row r of `a` times `b`. */
  function MatMul(a: Matrix3, b: Matrix3): Matrix3 {
    Matrix3(RowTimes(a.x, b), RowTimes(a.y, b), RowTimes(a.z, b))
  }

  /** Regrouping a double sum, on scalars: `w` is `B u` and `p` is `rᵀ B`. */
  lemma RegroupSums(r0: real, r1: real, r2: real,
                    b00: real, b01: real, b02: real, b10: real, b11: real, b12: real,
                    b20: real, b21: real, b22: real, u0: real, u1: real, u2: real,
                    w0: real, w1: real, w2: real, p0: real, p1: real, p2: real)
    requires w0 == b00 * u0 + b01 * u1 + b02 * u2
    requires w1 == b10 * u0 + b11 * u1 + b12 * u2
    requires w2 == b20 * u0 + b21 * u1 + b22 * u2
    requires p0 == r0 * b00 + r1 * b10 + r2 * b20
    requires p1 == r0 * b01 + r1 * b11 + r2 * b21
    requires p2 == r0 * b02 + r1 * b12 + r2 * b22
    ensures r0 * w0 + r1 * w1 + r2 * w2 == p0 * u0 + p1 * u1 + p2 * u2
  {
  }

  lemma RowAssociates(r: Vector3, b: Matrix3, u: Vector3)
    ensures Dot(r, Apply(b, u)) == Dot(RowTimes(r, b), u)
  {
    var w := Apply(b, u);
    var p := RowTimes(r, b);
    RegroupSums(r.x, r.y, r.z, b.x.x, b.x.y, b.x.z, b.y.x, b.y.y, b.y.z, b.z.x, b.z.y, b.z.z,
                u.x, u.y, u.z, w.x, w.y, w.z, p.x, p.y, p.z);
  }

  lemma ApplyAssociates(a: Matrix3, b: Matrix3, u: Vector3)
    ensures Apply(a, Apply(b, u)) == Apply(MatMul(a, b), u)
  {
    RowAssociates(a.x, b, u);
    RowAssociates(a.y, b, u);
    RowAssociates(a.z, b, u);
  }

  // ----- The adjugate through cross products -----
  // Each column of adj(M) is the cross product of two rows of M, and each row
  // of adj(M) the cross product of two columns, so every entry of M adj(M) and
  // adj(M) M is a triple product. The nonlinear identities are stated on
  // scalars, with the cross product's components named, so that each step
  // linking them to the matrices is linear.

  /** The cross product `u × v`. */
  function Cross(u: Vector3, v: Vector3): Vector3 {
    Vector3(u.y * v.z - u.z * v.y, u.z * v.x - u.x * v.z, u.x * v.y - u.y * v.x)
  }

  /** Column c of M, as a vector. */
  function Column(m: Matrix3, c: int): Vector3
    requires 0 <= c < 3
  {
    if c == 0 then Vector3(m.x.x, m.y.x, m.z.x)
    else if c == 1 then Vector3(m.x.y, m.y.y, m.z.y)
    else Vector3(m.x.z, m.y.z, m.z.z)
  }

  lemma CrossOrthogonalScalar(u0: real, u1: real, u2: real, v0: real, v1: real, v2: real,
                              c0: real, c1: real, c2: real)
    requires c0 == u1 * v2 - u2 * v1 && c1 == u2 * v0 - u0 * v2 && c2 == u0 * v1 - u1 * v0
    ensures u0 * c0 + u1 * c1 + u2 * c2 == 0.0
    ensures v0 * c0 + v1 * c1 + v2 * c2 == 0.0
  {
  }

  /** `u × v` is orthogonal to both `u` and `v`. */
  lemma CrossOrthogonal(u: Vector3, v: Vector3)
    ensures Dot(u, Cross(u, v)) == 0.0 && Dot(v, Cross(u, v)) == 0.0
  {
    var c := Cross(u, v);
    CrossOrthogonalScalar(u.x, u.y, u.z, v.x, v.y, v.z, c.x, c.y, c.z);
  }

  lemma TripleCyclicScalar(u0: real, u1: real, u2: real, v0: real, v1: real, v2: real,
                           w0: real, w1: real, w2: real,
                           a0: real, a1: real, a2: real, b0: real, b1: real, b2: real)
    requires a0 == v1 * w2 - v2 * w1 && a1 == v2 * w0 - v0 * w2 && a2 == v0 * w1 - v1 * w0
    requires b0 == w1 * u2 - w2 * u1 && b1 == w2 * u0 - w0 * u2 && b2 == w0 * u1 - w1 * u0
    ensures u0 * a0 + u1 * a1 + u2 * a2 == v0 * b0 + v1 * b1 + v2 * b2
  {
  }

  /** The triple product is invariant under a cyclic shift: `u · (v × w) = v · (w × u)`. */
  lemma TripleCyclic(u: Vector3, v: Vector3, w: Vector3)
    ensures Dot(u, Cross(v, w)) == Dot(v, Cross(w, u))
  {
    var a, b := Cross(v, w), Cross(w, u);
    TripleCyclicScalar(u.x, u.y, u.z, v.x, v.y, v.z, w.x, w.y, w.z, a.x, a.y, a.z, b.x, b.y, b.z);
  }

  lemma DetScalar(m00: real, m01: real, m02: real, m10: real, m11: real, m12: real,
                  m20: real, m21: real, m22: real, c0: real, c1: real, c2: real, d0: real, d1: real, d2: real, det: real)
    requires c0 == m11 * m22 - m12 * m21 && c1 == m12 * m20 - m10 * m22 && c2 == m10 * m21 - m11 * m20
    requires d0 == m11 * m22 - m21 * m12 && d1 == m21 * m02 - m01 * m22 && d2 == m01 * m12 - m11 * m02
    requires det == m00 * (m11 * m22 - m12 * m21) - m01 * (m10 * m22 - m12 * m20) + m02 * (m10 * m21 - m11 * m20)
    ensures det == m00 * c0 + m01 * c1 + m02 * c2
    ensures det == m00 * d0 + m10 * d1 + m20 * d2
  {
  }

  /** The determinant is the triple product of the rows, and of the columns. */
  lemma DetIsTriple(m: Matrix3)
    ensures Det(m) == Dot(m.x, Cross(m.y, m.z))
    ensures Det(m) == Dot(Column(m, 0), Cross(Column(m, 1), Column(m, 2)))
  {
    var c, d := Cross(m.y, m.z), Cross(Column(m, 1), Column(m, 2));
    DetScalar(m.x.x, m.x.y, m.x.z, m.y.x, m.y.y, m.y.z, m.z.x, m.z.y, m.z.z,
              c.x, c.y, c.z, d.x, d.y, d.z, Det(m));
  }

  // Each identity below is stated on its own: an equation between adj(M) and
  // a cross product is cheap for the solver when it is one entry or one
  // column, and expensive when several are asked for at once.

  /** Column 0 of adj(M) is `M.y × M.z`. */
  lemma AdjugateColumn0(m: Matrix3)
    ensures Column(Adjugate(m), 0) == Cross(m.y, m.z)
  {
  }

  /** Column 1 of adj(M) is `M.z × M.x`. */
  lemma AdjugateColumn1(m: Matrix3)
    ensures Column(Adjugate(m), 1) == Cross(m.z, m.x)
  {
  }

  /** Column 2 of adj(M) is `M.x × M.y`. */
  lemma AdjugateColumn2(m: Matrix3)
    ensures Column(Adjugate(m), 2) == Cross(m.x, m.y)
  {
  }

  /** The columns of adj(M) are `M.y × M.z`, `M.z × M.x` and `M.x × M.y`. */
  lemma AdjugateColumns(m: Matrix3)
    ensures Column(Adjugate(m), 0) == Cross(m.y, m.z)
    ensures Column(Adjugate(m), 1) == Cross(m.z, m.x)
    ensures Column(Adjugate(m), 2) == Cross(m.x, m.y)
  {
    AdjugateColumn0(m);
    AdjugateColumn1(m);
    AdjugateColumn2(m);
  }

  lemma AdjugateRowXX(m: Matrix3)
    ensures Adjugate(m).x.x == Cross(Column(m, 1), Column(m, 2)).x
  {
  }

  lemma AdjugateRowXY(m: Matrix3)
    ensures Adjugate(m).x.y == Cross(Column(m, 1), Column(m, 2)).y
  {
  }

  lemma AdjugateRowXZ(m: Matrix3)
    ensures Adjugate(m).x.z == Cross(Column(m, 1), Column(m, 2)).z
  {
  }

  lemma AdjugateRowYX(m: Matrix3)
    ensures Adjugate(m).y.x == Cross(Column(m, 2), Column(m, 0)).x
  {
  }

  lemma AdjugateRowYY(m: Matrix3)
    ensures Adjugate(m).y.y == Cross(Column(m, 2), Column(m, 0)).y
  {
  }

  lemma AdjugateRowYZ(m: Matrix3)
    ensures Adjugate(m).y.z == Cross(Column(m, 2), Column(m, 0)).z
  {
  }

  lemma AdjugateRowZX(m: Matrix3)
    ensures Adjugate(m).z.x == Cross(Column(m, 0), Column(m, 1)).x
  {
  }

  lemma AdjugateRowZY(m: Matrix3)
    ensures Adjugate(m).z.y == Cross(Column(m, 0), Column(m, 1)).y
  {
  }

  lemma AdjugateRowZZ(m: Matrix3)
    ensures Adjugate(m).z.z == Cross(Column(m, 0), Column(m, 1)).z
  {
  }

  /** The rows of adj(M) are the cross products of the columns of M, in the same pattern. */
  lemma AdjugateRows(m: Matrix3)
    ensures Adjugate(m).x == Cross(Column(m, 1), Column(m, 2))
    ensures Adjugate(m).y == Cross(Column(m, 2), Column(m, 0))
    ensures Adjugate(m).z == Cross(Column(m, 0), Column(m, 1))
  {
    AdjugateRowXX(m); AdjugateRowXY(m); AdjugateRowXZ(m);
    AdjugateRowYX(m); AdjugateRowYY(m); AdjugateRowYZ(m);
    AdjugateRowZX(m); AdjugateRowZY(m); AdjugateRowZZ(m);
  }

  /** Entry c of `r B` is `r` against column c of B. */
  lemma RowTimesColumn(r: Vector3, b: Matrix3)
    ensures RowTimes(r, b).x == Dot(r, Column(b, 0))
    ensures RowTimes(r, b).y == Dot(r, Column(b, 1))
    ensures RowTimes(r, b).z == Dot(r, Column(b, 2))
  {
  }

  lemma DotCommutes(u: Vector3, v: Vector3)
    ensures Dot(u, v) == Dot(v, u)
  {
  }

  /** M adj(M) = det(M) I. */
  lemma AdjugateRight(m: Matrix3)
    ensures MatMul(m, Adjugate(m)) == MScale(Det(m), Eye())
  {
    var adj := Adjugate(m);
    AdjugateColumns(m);
    RowTimesColumn(m.x, adj);
    RowTimesColumn(m.y, adj);
    RowTimesColumn(m.z, adj);
    CrossOrthogonal(m.y, m.z);
    CrossOrthogonal(m.z, m.x);
    CrossOrthogonal(m.x, m.y);
    DetIsTriple(m);
    TripleCyclic(m.x, m.y, m.z);
    TripleCyclic(m.z, m.x, m.y);
    ScaledEyeEntries(Det(m));
  }

  /** adj(M) M = det(M) I. */
  lemma AdjugateLeft(m: Matrix3)
    ensures MatMul(Adjugate(m), m) == MScale(Det(m), Eye())
  {
    var adj := Adjugate(m);
    var c0, c1, c2 := Column(m, 0), Column(m, 1), Column(m, 2);
    AdjugateRows(m);
    RowTimesColumn(adj.x, m);
    RowTimesColumn(adj.y, m);
    RowTimesColumn(adj.z, m);
    CrossOrthogonal(c1, c2);
    CrossOrthogonal(c2, c0);
    CrossOrthogonal(c0, c1);
    DetIsTriple(m);
    TripleCyclic(c0, c1, c2);
    TripleCyclic(c2, c0, c1);
    DotCommutes(adj.x, c0); DotCommutes(adj.x, c1); DotCommutes(adj.x, c2);
    DotCommutes(adj.y, c0); DotCommutes(adj.y, c1); DotCommutes(adj.y, c2);
    DotCommutes(adj.z, c0); DotCommutes(adj.z, c1); DotCommutes(adj.z, c2);
    ScaledEyeEntries(Det(m));
  }

  lemma ScaledEyeEntries(d: real)
    ensures MScale(d, Eye()) == Matrix3(Vector3(d, 0.0, 0.0), Vector3(0.0, d, 0.0), Vector3(0.0, 0.0, d))
  {
  }

  lemma ScaledEye(c: real, u: Vector3)
    ensures Apply(MScale(c, Eye()), u) == Scale(c, u)
  {
    ScaledEyeEntries(c);
  }

  lemma ScaleByReciprocal(d: real, u: Vector3)
    requires d != 0.0
    ensures Scale(1.0 / d, Scale(d, u)) == u
  {
    assert 1.0 / d * d == 1.0;
    ScaleScale(1.0 / d, d, u);
  }

  /** Over exact reals the cofactor inverse is a right inverse whenever the
      determinant is non-zero: M (M⁻¹ u) = u. */
  lemma InverseRight(m: Matrix3, u: Vector3)
    requires Det(m) != 0.0
    ensures Apply(m, Apply(Inverse(m), u)) == u
  {
    var d := Det(m);
    var adj := Adjugate(m);
    assert Inverse(m) == MScale(1.0 / d, adj);
    // M ((1/d) adj u) = (1/d) (M adj) u = (1/d) (d u) = u
    ApplyScalesMatrix(1.0 / d, adj, u);
    ApplyScalesVector(1.0 / d, m, Apply(adj, u));
    ApplyAssociates(m, adj, u);
    AdjugateRight(m);
    ScaledEye(d, u);
    ScaleByReciprocal(d, u);
  }

  /** ... and a left inverse: M⁻¹ (M u) = u. */
  lemma InverseLeft(m: Matrix3, u: Vector3)
    requires Det(m) != 0.0
    ensures Apply(Inverse(m), Apply(m, u)) == u
  {
    var d := Det(m);
    var adj := Adjugate(m);
    assert Inverse(m) == MScale(1.0 / d, adj);
    // (1/d) adj (M u) = (1/d) (adj M) u = (1/d) (d u) = u
    ApplyScalesMatrix(1.0 / d, adj, Apply(m, u));
    ApplyAssociates(adj, m, u);
    AdjugateLeft(m);
    ScaledEye(d, u);
    ScaleByReciprocal(d, u);
  }

  /** `inverse()` falls back to the zero matrix exactly when the determinant is 0. */
  lemma InverseZeroIffSingular(m: Matrix3)
    ensures Inverse(m) == ZeroMatrix() <==> Det(m) == 0.0
  {
    if Det(m) != 0.0 && Inverse(m) == ZeroMatrix() {
      InverseRight(m, OnesVector());
      ApplyZero(Inverse(m), OnesVector());
      ApplyZero(m, ZeroVector());
      assert false;
    }
  }
}

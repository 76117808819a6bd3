/** Exact 4x4 matrices, standing in for vecmath's `Matrix4f`. */
module Matrices {
  import opened Vectors

  /** A matrix stored by rows; the constants of curve.cpp are written row by row,
      in the order `Matrix4f(m00, m01, ..., m33)` reads its sixteen arguments. */
  datatype Mat4 = Mat4(r0: Vec4, r1: Vec4, r2: Vec4, r3: Vec4)

  /** Component `j` of a 4-vector. */
  function At(v: Vec4, j: int): real
    requires 0 <= j < 4
  {
    if j == 0 then v.x else if j == 1 then v.y else if j == 2 then v.z else v.w
  }

  function Row(m: Mat4, i: int): Vec4
    requires 0 <= i < 4
  {
    if i == 0 then m.r0 else if i == 1 then m.r1 else if i == 2 then m.r2 else m.r3
  }

  /** `m.getCol(j)`. */
  function Col(m: Mat4, j: int): Vec4
    requires 0 <= j < 4
  {
    Vec4(At(m.r0, j), At(m.r1, j), At(m.r2, j), At(m.r3, j))
  }

  /** The entry in row `i`, column `j`. */
  function Entry(m: Mat4, i: int, j: int): real
    requires 0 <= i < 4 && 0 <= j < 4
  {
    At(Row(m, i), j)
  }

  /** `Matrix4f(c0, c1, c2, c3)`: the four vectors become the columns. */
  function FromColumns(c0: Vec4, c1: Vec4, c2: Vec4, c3: Vec4): Mat4 {
    Mat4(Vec4(c0.x, c1.x, c2.x, c3.x), Vec4(c0.y, c1.y, c2.y, c3.y),
         Vec4(c0.z, c1.z, c2.z, c3.z), Vec4(c0.w, c1.w, c2.w, c3.w))
  }

  function Dot4(a: Vec4, b: Vec4): real {
    a.x * b.x + a.y * b.y + a.z * b.z + a.w * b.w
  }

  /** One row of a product: the row vector `r` times the matrix `b`. */
  function RowTimes(r: Vec4, b: Mat4): Vec4 {
    Vec4(r.x * b.r0.x + r.y * b.r1.x + r.z * b.r2.x + r.w * b.r3.x,
         r.x * b.r0.y + r.y * b.r1.y + r.z * b.r2.y + r.w * b.r3.y,
         r.x * b.r0.z + r.y * b.r1.z + r.z * b.r2.z + r.w * b.r3.z,
         r.x * b.r0.w + r.y * b.r1.w + r.z * b.r2.w + r.w * b.r3.w)
  }

  /** The matrix product `a * b`. */
  function Mul(a: Mat4, b: Mat4): Mat4 {
    Mat4(RowTimes(a.r0, b), RowTimes(a.r1, b), RowTimes(a.r2, b), RowTimes(a.r3, b))
  }

  /** The matrix-vector product `m * v`. */
  function Apply(m: Mat4, v: Vec4): Vec4 {
    Vec4(Dot4(m.r0, v), Dot4(m.r1, v), Dot4(m.r2, v), Dot4(m.r3, v))
  }

  /** The entries of the identity matrix. */
  function Delta(i: int, j: int): real {
    if i == j then 1.0 else 0.0
  }

  /** The identity matrix. */
  const Identity: Mat4 :=
    Mat4(Vec4(1.0, 0.0, 0.0, 0.0), Vec4(0.0, 1.0, 0.0, 0.0), Vec4(0.0, 0.0, 1.0, 0.0), Vec4(0.0, 0.0, 0.0, 1.0))

  /** One entry of a row-times-matrix product, weighted by `x`, split by row. */
  lemma SplitWeighted(e: real, a0: real, a1: real, a2: real, a3: real, c0: real, c1: real, c2: real, c3: real, x: real)
    requires e == a0 * c0 + a1 * c1 + a2 * c2 + a3 * c3
    ensures e * x == a0 * (c0 * x) + a1 * (c1 * x) + a2 * (c2 * x) + a3 * (c3 * x)
  {
  }

  /** A weight times a sum of four terms, split term by term. */
  lemma SplitSum(e: real, a: real, b: real, c: real, d: real, x: real)
    requires e == a + b + c + d
    ensures x * e == x * a + x * b + x * c + x * d
  {
  }

  /** A row times a product, regrouped: `(r * b) . v == r . (b * v)`. */
  lemma RowTimesApply(r: Vec4, b: Mat4, v: Vec4)
    ensures Dot4(RowTimes(r, b), v) == Dot4(r, Apply(b, v))
  {
    var u, q := RowTimes(r, b), Apply(b, v);
    SplitWeighted(u.x, r.x, r.y, r.z, r.w, b.r0.x, b.r1.x, b.r2.x, b.r3.x, v.x);
    SplitWeighted(u.y, r.x, r.y, r.z, r.w, b.r0.y, b.r1.y, b.r2.y, b.r3.y, v.y);
    SplitWeighted(u.z, r.x, r.y, r.z, r.w, b.r0.z, b.r1.z, b.r2.z, b.r3.z, v.z);
    SplitWeighted(u.w, r.x, r.y, r.z, r.w, b.r0.w, b.r1.w, b.r2.w, b.r3.w, v.w);
    SplitSum(q.x, b.r0.x * v.x, b.r0.y * v.y, b.r0.z * v.z, b.r0.w * v.w, r.x);
    SplitSum(q.y, b.r1.x * v.x, b.r1.y * v.y, b.r1.z * v.z, b.r1.w * v.w, r.y);
    SplitSum(q.z, b.r2.x * v.x, b.r2.y * v.y, b.r2.z * v.z, b.r2.w * v.w, r.z);
    SplitSum(q.w, b.r3.x * v.x, b.r3.y * v.y, b.r3.z * v.z, b.r3.w * v.w, r.w);
  }

  /** Applying a product is applying its factors in turn, so the source's
      precomputed `G * Basis` evaluates like `G * (Basis * v)`. */
  lemma ApplyMul(a: Mat4, b: Mat4, v: Vec4)
    ensures Apply(Mul(a, b), v) == Apply(a, Apply(b, v))
  {
    RowTimesApply(a.r0, b, v);
    RowTimesApply(a.r1, b, v);
    RowTimesApply(a.r2, b, v);
    RowTimesApply(a.r3, b, v);
  }

  /** The unit vector along axis `j`. */
  function Unit(j: int): Vec4 {
    Vec4(Delta(0, j), Delta(1, j), Delta(2, j), Delta(3, j))
  }

  /** Column `j` is the image of the `j`-th unit vector. */
  lemma ColIsApply(m: Mat4, j: int)
    requires 0 <= j < 4
    ensures Col(m, j) == Apply(m, Unit(j))
  {
  }

  /** The identity leaves every vector unchanged. */
  lemma IdentityApply(v: Vec4)
    ensures Apply(Identity, v) == v
  {
  }

}

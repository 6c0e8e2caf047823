/**
 * Small dense linear algebra over the reals: the subset of Unity's
 * Matrix4x4/Vector3 and MathNet's DenseMatrix/DenseVector that the deformer
 * uses. Matrices are row-major sequences of rows; `m[r][c]` is the entry in
 * row r and column c, as `m[r, c]` is in the source.
 */
module LinAlg {

  type Mat = seq<seq<real>>

  /** `m` has `rows` rows of `cols` entries each. */
  predicate IsMat(m: Mat, rows: nat, cols: nat) {
    |m| == rows && forall r :: 0 <= r < rows ==> |m[r]| == cols
  }

  type Vec3 = v: seq<real> | |v| == 3 witness [0.0, 0.0, 0.0]
  type Vec4 = v: seq<real> | |v| == 4 witness [0.0, 0.0, 0.0, 0.0]

  type Mat3 = m: seq<Vec3> | |m| == 3 witness [ZeroVec3, ZeroVec3, ZeroVec3]

  type Mat4 = m: seq<Vec4> | |m| == 4 witness [ZeroVec4, ZeroVec4, ZeroVec4, ZeroVec4]

  const ZeroVec4: Vec4 := [0.0, 0.0, 0.0, 0.0]

  predicate Symmetric4(m: Mat4) {
    forall r, c :: 0 <= r < 4 && 0 <= c < 4 ==> m[r][c] == m[c][r]
  }

  predicate Symmetric3(m: Mat3) {
    forall r, c :: 0 <= r < 3 && 0 <= c < 3 ==> m[r][c] == m[c][r]
  }

  // ---------------------------------------------------------------- vectors

  function Vec3Add(a: Vec3, b: Vec3): Vec3 {
    [a[0] + b[0], a[1] + b[1], a[2] + b[2]]
  }

  function Vec3Sub(a: Vec3, b: Vec3): Vec3 {
    [a[0] - b[0], a[1] - b[1], a[2] - b[2]]
  }

  const ZeroVec3: Vec3 := [0.0, 0.0, 0.0]

  /** Vectors with equal components are equal. */
  lemma Vec3Equal(a: Vec3, b: Vec3)
    requires a[0] == b[0] && a[1] == b[1] && a[2] == b[2]
    ensures a == b
  {
    assert forall i | 0 <= i < 3 :: a[i] == b[i];
  }

  // --------------------------------------------------------------- 3 x 3

  const Zero3: Mat3 := [[0.0, 0.0, 0.0], [0.0, 0.0, 0.0], [0.0, 0.0, 0.0]]

  const Identity3: Mat3 := [[1.0, 0.0, 0.0], [0.0, 1.0, 0.0], [0.0, 0.0, 1.0]]

  function Sub3(a: Mat3, b: Mat3): Mat3 {
    [[a[0][0] - b[0][0], a[0][1] - b[0][1], a[0][2] - b[0][2]],
     [a[1][0] - b[1][0], a[1][1] - b[1][1], a[1][2] - b[1][2]],
     [a[2][0] - b[2][0], a[2][1] - b[2][1], a[2][2] - b[2][2]]]
  }

  function Mul3(a: Mat3, b: Mat3): Mat3 {
    [MulRow3(a[0], b), MulRow3(a[1], b), MulRow3(a[2], b)]
  }

  function MulRow3(r: seq<real>, b: Mat3): seq<real>
    requires |r| == 3
  {
    [r[0] * b[0][0] + r[1] * b[1][0] + r[2] * b[2][0],
     r[0] * b[0][1] + r[1] * b[1][1] + r[2] * b[2][1],
     r[0] * b[0][2] + r[1] * b[1][2] + r[2] * b[2][2]]
  }

  /** Outer product u v^T (MathNet's `u.OuterProduct(v, result)`). */
  function Outer3(u: Vec3, v: Vec3): Mat3 {
    [[u[0] * v[0], u[0] * v[1], u[0] * v[2]],
     [u[1] * v[0], u[1] * v[1], u[1] * v[2]],
     [u[2] * v[0], u[2] * v[1], u[2] * v[2]]]
  }

  /** Dot product of a matrix row with a vector. */
  function Dot3(row: seq<real>, v: Vec3): real
    requires |row| == 3
  {
    row[0] * v[0] + row[1] * v[1] + row[2] * v[2]
  }

  /** Matrix times column vector. */
  function MulVec3(m: Mat3, v: Vec3): Vec3 {
    [Dot3(m[0], v), Dot3(m[1], v), Dot3(m[2], v)]
  }

  /** A row product distributes over the difference v - p. */
  lemma DotSub(row: seq<real>, v: Vec3, p: Vec3)
    requires |row| == 3
    ensures Dot3(row, Vec3Sub(v, p)) == Dot3(row, v) - Dot3(row, p)
  {
  }

  /** m (v - p) = m v - m p. */
  lemma MulVecSub(m: Mat3, v: Vec3, p: Vec3)
    ensures MulVec3(m, Vec3Sub(v, p)) == Vec3Sub(MulVec3(m, v), MulVec3(m, p))
  {
    DotSub(m[0], v, p);
    DotSub(m[1], v, p);
    DotSub(m[2], v, p);
    Vec3Equal(MulVec3(m, Vec3Sub(v, p)), Vec3Sub(MulVec3(m, v), MulVec3(m, p)));
  }

  // --------------------------------------------------------------- 4 x 4

  const Zero4: Mat4 := [[0.0, 0.0, 0.0, 0.0], [0.0, 0.0, 0.0, 0.0],
                        [0.0, 0.0, 0.0, 0.0], [0.0, 0.0, 0.0, 0.0]]

  const Identity4: Mat4 := [[1.0, 0.0, 0.0, 0.0], [0.0, 1.0, 0.0, 0.0],
                            [0.0, 0.0, 1.0, 0.0], [0.0, 0.0, 0.0, 1.0]]

  function Add4(a: Mat4, b: Mat4): Mat4 {
    seq(4, r requires 0 <= r < 4 => seq(4, c requires 0 <= c < 4 => a[r][c] + b[r][c]))
  }

  function Scale4(s: real, a: Mat4): Mat4 {
    seq(4, r requires 0 <= r < 4 => seq(4, c requires 0 <= c < 4 => s * a[r][c]))
  }

  function Mul4(a: Mat4, b: Mat4): Mat4 {
    seq(4, r requires 0 <= r < 4 => seq(4, c requires 0 <= c < 4 =>
      a[r][0] * b[0][c] + a[r][1] * b[1][c] + a[r][2] * b[2][c] + a[r][3] * b[3][c]))
  }

  function Outer4(u: Vec4, v: Vec4): Mat4 {
    seq(4, r requires 0 <= r < 4 => seq(4, c requires 0 <= c < 4 => u[r] * v[c]))
  }

  /** A 4x4 matrix holding `m` in its upper-left 3x3 block and zeros elsewhere
      (MathNet's `SetSubMatrix(0, 0, m)` on a fresh zero matrix). */
  function Embed3(m: Mat3): Mat4 {
    seq(4, r requires 0 <= r < 4 => seq(4, c requires 0 <= c < 4 =>
      if r < 3 && c < 3 then m[r][c] else 0.0))
  }

  // ------------------------------------------------------------- symmetry

  lemma OuterSymmetric3(u: Vec3)
    ensures Symmetric3(Outer3(u, u))
  {
  }

  lemma EmbedSymmetric(m: Mat3)
    requires Symmetric3(m)
    ensures Symmetric4(Embed3(m))
  {
  }

  lemma AddSymmetric(a: Mat4, b: Mat4)
    requires Symmetric4(a) && Symmetric4(b)
    ensures Symmetric4(Add4(a, b))
  {
  }

  lemma ScaledOuterSymmetric(s: real, u: Vec4)
    ensures Symmetric4(Scale4(s, Outer4(u, u)))
  {
  }

  lemma AddScaleSymmetric(s: real, a: Mat4, t: real, b: Mat4)
    requires Symmetric4(a) && Symmetric4(b)
    ensures Symmetric4(Add4(Scale4(s, a), Scale4(t, b)))
  {
  }
}

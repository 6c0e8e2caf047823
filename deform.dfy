/**
 * The per-vertex step of Direct Delta Mush skinning on the CPU
 * (DDMSkinnedMeshGPUVar0.UpdateMeshOnCPU): scan a vertex's bounded,
 * sentinel-terminated omega list, accumulate bone * omega, build gamma from
 * R = U * V^T, the factors of an SVD of the 3x3 cross-covariance block, and
 * apply gamma to the bind-pose vertex and normal. Also the axis-aligned bounds that
 * the CPU path computes over the deformed vertices.
 *
 * The SVD is a parameter (`svd`): nothing is assumed about it beyond the shape
 * of its factors, and, as in the source, R = U*V^T is not corrected when it is
 * a reflection.
 */
module Deform {
  import opened LinAlg

  /** Slots per vertex in the omega table (and in the adjacency table). */
  const MaxOmegaCount: nat := 32

  /** One slot of a vertex's omega list: a bone index (negative = end of the
      list) and the ten independent coefficients of a symmetric 4x4 omega. */
  datatype OmegaWithIndex = OmegaWithIndex(
    boneIndex: int,
    m00: real, m01: real, m02: real, m03: real,
    m11: real, m12: real, m13: real,
    m22: real, m23: real,
    m33: real)

  /** The ten coefficients unpacked into the full symmetric matrix. */
  function OmegaMatrix(o: OmegaWithIndex): (m: Mat4)
    ensures Symmetric4(m)
  {
    [[o.m00, o.m01, o.m02, o.m03],
     [o.m01, o.m11, o.m12, o.m13],
     [o.m02, o.m12, o.m22, o.m23],
     [o.m03, o.m13, o.m23, o.m33]]
  }

  /** The packed form of a symmetric matrix: its upper triangle. This is the
      layout the precomputation stores; it is the inverse of OmegaMatrix. */
  function PackOmega(boneIndex: int, m: Mat4): OmegaWithIndex {
    OmegaWithIndex(boneIndex,
      m[0][0], m[0][1], m[0][2], m[0][3],
      m[1][1], m[1][2], m[1][3],
      m[2][2], m[2][3],
      m[3][3])
  }

  /** Unpacking loses nothing: the ten coefficients determine the matrix, and
      a symmetric matrix is recovered from its packed form. */
  lemma OmegaPackRoundTrip(o: OmegaWithIndex, m: Mat4)
    ensures PackOmega(o.boneIndex, OmegaMatrix(o)) == o
    ensures Symmetric4(m) ==> OmegaMatrix(PackOmega(0, m)) == m
  {
    if Symmetric4(m) {
      var u := OmegaMatrix(PackOmega(0, m));
      forall r | 0 <= r < 4 ensures u[r] == m[r] {
        assert m[r][0] == m[0][r];
        assert m[r][1] == m[1][r];
        assert m[r][2] == m[2][r];
      }
    }
  }

  // ------------------------------------------------------- the sentinel scan

  /** Number of slots read before the scan stops: the first slot whose bone
      index is negative, or the whole list when there is none. */
  function ActiveCount(slots: seq<OmegaWithIndex>): (k: nat)
    ensures k <= |slots|
    ensures forall s :: 0 <= s < k ==> slots[s].boneIndex >= 0
    ensures k < |slots| ==> slots[k].boneIndex < 0
  {
    if |slots| == 0 || slots[0].boneIndex < 0 then 0 else 1 + ActiveCount(slots[1..])
  }

  /** Every slot the scan reads names an existing bone. */
  predicate SlotsInRange(boneCount: nat, slots: seq<OmegaWithIndex>) {
    forall s :: 0 <= s < ActiveCount(slots) ==> slots[s].boneIndex < boneCount
  }

  /** The contribution of one slot: bone matrix times unpacked omega. */
  function Contribution(bones: seq<Mat4>, o: OmegaWithIndex): Mat4
    requires 0 <= o.boneIndex < |bones|
  {
    Mul4(bones[o.boneIndex], OmegaMatrix(o))
  }

  /** sum_{s<k} bones[idx_s] * omega_s, summed in slot order starting from the
      first contribution (the source assigns the first product, then adds). */
  function BlendPrefix(bones: seq<Mat4>, slots: seq<OmegaWithIndex>, k: nat): Mat4
    requires SlotsInRange(|bones|, slots)
    requires 1 <= k <= ActiveCount(slots)
  {
    if k == 1 then Contribution(bones, slots[0])
    else Add4(BlendPrefix(bones, slots, k - 1), Contribution(bones, slots[k - 1]))
  }

  /** The accumulated transform `mat4` of a vertex: the identity when its first
      slot is already the sentinel, otherwise the sum over the active slots. */
  function Blend(bones: seq<Mat4>, slots: seq<OmegaWithIndex>): Mat4
    requires SlotsInRange(|bones|, slots)
  {
    var k := ActiveCount(slots);
    if k == 0 then Identity4 else BlendPrefix(bones, slots, k)
  }

  /** The accumulation loop. The scan stops at the first negative bone index
      and never reads past it. */
  method BlendOmegas(bones: seq<Mat4>, slots: seq<OmegaWithIndex>) returns (mat4: Mat4)
    requires |slots| == MaxOmegaCount
    requires SlotsInRange(|bones|, slots)
    ensures mat4 == Blend(bones, slots)
  {
    mat4 := Identity4;
    var oswi0 := slots[0];
    if oswi0.boneIndex >= 0 {
      var omega0 := OmegaMatrix(oswi0);
      mat4 := Mul4(bones[oswi0.boneIndex], omega0);
      var i := 1;
      while i < MaxOmegaCount
        invariant 1 <= i <= ActiveCount(slots)
        invariant mat4 == BlendPrefix(bones, slots, i)
      {
        var oswi := slots[i];
        if oswi.boneIndex < 0 {
          break;
        }
        var omega := OmegaMatrix(oswi);
        mat4 := Add4(mat4, Mul4(bones[oswi.boneIndex], omega));
        i := i + 1;
      }
      assert i == ActiveCount(slots);
    }
  }

  lemma {:induction false} ActiveCountAgrees(a: seq<OmegaWithIndex>, b: seq<OmegaWithIndex>)
    requires |a| == |b|
    requires forall s :: 0 <= s < |a| && s <= ActiveCount(a) ==> a[s] == b[s]
    ensures ActiveCount(b) == ActiveCount(a)
  {
    if |a| > 0 && a[0].boneIndex >= 0 {
      assert a[0] == b[0];
      forall s | 0 <= s < |a| - 1 && s <= ActiveCount(a[1..])
        ensures a[1..][s] == b[1..][s]
      {
        assert a[s + 1] == b[s + 1];
      }
      ActiveCountAgrees(a[1..], b[1..]);
    } else if |a| > 0 {
      assert a[0] == b[0];
    }
  }

  lemma {:induction false} BlendPrefixAgrees(bones: seq<Mat4>, a: seq<OmegaWithIndex>,
                                              b: seq<OmegaWithIndex>, k: nat)
    requires SlotsInRange(|bones|, a) && SlotsInRange(|bones|, b)
    requires 1 <= k <= ActiveCount(a) && k <= ActiveCount(b)
    requires forall s :: 0 <= s < k ==> a[s] == b[s]
    ensures BlendPrefix(bones, a, k) == BlendPrefix(bones, b, k)
  {
    if k > 1 {
      BlendPrefixAgrees(bones, a, b, k - 1);
    }
  }

  /** Slots after the sentinel are never read: two lists that agree up to and
      including the sentinel blend to the same matrix. */
  lemma BlendIgnoresSlotsAfterSentinel(bones: seq<Mat4>, a: seq<OmegaWithIndex>,
                                       b: seq<OmegaWithIndex>)
    requires |a| == |b|
    requires forall s :: 0 <= s < |a| && s <= ActiveCount(a) ==> a[s] == b[s]
    requires SlotsInRange(|bones|, a)
    ensures SlotsInRange(|bones|, b)
    ensures Blend(bones, a) == Blend(bones, b)
  {
    ActiveCountAgrees(a, b);
    var k := ActiveCount(a);
    if k > 0 {
      BlendPrefixAgrees(bones, a, b, k);
    }
  }

  // ------------------------------------------------ gamma from the SVD

  /** Factors of a singular value decomposition M = U sum V^T; only U and V^T are
      used. */
  datatype Svd3 = Svd3(u: Mat3, vt: Mat3)

  /** Q = mat4[0..2, 0..2]. */
  function UpperBlock(m: Mat4): Mat3 {
    [[m[0][0], m[0][1], m[0][2]], [m[1][0], m[1][1], m[1][2]], [m[2][0], m[2][1], m[2][2]]]
  }

  /** q = mat4[0..2, 3]. */
  function TranslationColumn(m: Mat4): Vec3 {
    [m[0][3], m[1][3], m[2][3]]
  }

  /** p = mat4[3, 0..2]. */
  function BottomRow(m: Mat4): Vec3 {
    [m[3][0], m[3][1], m[3][2]]
  }

  /** M = Q - q p^T. */
  function CrossCovariance(m: Mat4): Mat3 {
    Sub3(UpperBlock(m), Outer3(TranslationColumn(m), BottomRow(m)))
  }

  /** R = U * V^T from the SVD of M, with no reflection correction. */
  function Rotation(m: Mat4, svd: Mat3 -> Svd3): Mat3 {
    var f := svd(CrossCovariance(m));
    Mul3(f.u, f.vt)
  }

  /** t = q - R p. */
  function GammaTranslation(m: Mat4, svd: Mat3 -> Svd3): Vec3 {
    Vec3Sub(TranslationColumn(m), MulVec3(Rotation(m, svd), BottomRow(m)))
  }

  /** [R | t; 0 0 0 1]. */
  function GammaOf(R: Mat3, t: Vec3): Mat4 {
    [[R[0][0], R[0][1], R[0][2], t[0]],
     [R[1][0], R[1][1], R[1][2], t[1]],
     [R[2][0], R[2][1], R[2][2], t[2]],
     [0.0, 0.0, 0.0, 1.0]]
  }

  function Gamma(m: Mat4, svd: Mat3 -> Svd3): Mat4 {
    GammaOf(Rotation(m, svd), GammaTranslation(m, svd))
  }

  /** Unity's Matrix4x4.MultiplyPoint3x4: the affine transform of a point. */
  function MultiplyPoint3x4(g: Mat4, v: Vec3): Vec3 {
    [g[0][0] * v[0] + g[0][1] * v[1] + g[0][2] * v[2] + g[0][3],
     g[1][0] * v[0] + g[1][1] * v[1] + g[1][2] * v[2] + g[1][3],
     g[2][0] * v[0] + g[2][1] * v[1] + g[2][2] * v[2] + g[2][3]]
  }

  /** Unity's Matrix4x4.MultiplyVector: the linear 3x3 part only. */
  function MultiplyVector(g: Mat4, v: Vec3): Vec3 {
    [g[0][0] * v[0] + g[0][1] * v[1] + g[0][2] * v[2],
     g[1][0] * v[0] + g[1][1] * v[1] + g[1][2] * v[2],
     g[2][0] * v[0] + g[2][1] * v[1] + g[2][2] * v[2]]
  }

  /** The deformed position and normal of one vertex. */
  function DeformedPosition(bones: seq<Mat4>, slots: seq<OmegaWithIndex>, v: Vec3,
                            svd: Mat3 -> Svd3): Vec3
    requires SlotsInRange(|bones|, slots)
  {
    MultiplyPoint3x4(Gamma(Blend(bones, slots), svd), v)
  }

  function DeformedNormal(bones: seq<Mat4>, slots: seq<OmegaWithIndex>, n: Vec3,
                          svd: Mat3 -> Svd3): Vec3
    requires SlotsInRange(|bones|, slots)
  {
    MultiplyVector(Gamma(Blend(bones, slots), svd), n)
  }

  /** Gamma applies R about the blended centre p and carries p to q:
      gamma*v = R v + t = q + R (v - p). Whether R is a rotation depends on
      the SVD; nothing here assumes it. */
  lemma PositionAboutBlendedCentre(m: Mat4, svd: Mat3 -> Svd3, v: Vec3)
    ensures MultiplyPoint3x4(Gamma(m, svd), v)
            == Vec3Add(MulVec3(Rotation(m, svd), v), GammaTranslation(m, svd))
    ensures MultiplyPoint3x4(Gamma(m, svd), v)
            == Vec3Add(TranslationColumn(m), MulVec3(Rotation(m, svd), Vec3Sub(v, BottomRow(m))))
  {
    var R := Rotation(m, svd);
    var t := GammaTranslation(m, svd);
    var q := TranslationColumn(m);
    var p := BottomRow(m);
    GammaOfPoint(R, t, v);
    var affine := Vec3Add(MulVec3(R, v), t);
    var rhs := Vec3Add(q, MulVec3(R, Vec3Sub(v, p)));
    MulVecSub(R, v, p);
    Vec3Equal(affine, rhs);
  }

  /** [R | t; 0 0 0 1] applied to a point is R v + t. */
  lemma GammaOfPoint(R: Mat3, t: Vec3, v: Vec3)
    ensures MultiplyPoint3x4(GammaOf(R, t), v) == Vec3Add(MulVec3(R, v), t)
  {
    var g := GammaOf(R, t);
    var lhs := MultiplyPoint3x4(g, v);
    var rhs := Vec3Add(MulVec3(R, v), t);
    AffineRow(g[0][0], g[0][1], g[0][2], g[0][3], R[0][0], R[0][1], R[0][2], t[0], v[0], v[1], v[2]);
    AffineRow(g[1][0], g[1][1], g[1][2], g[1][3], R[1][0], R[1][1], R[1][2], t[1], v[0], v[1], v[2]);
    AffineRow(g[2][0], g[2][1], g[2][2], g[2][3], R[2][0], R[2][1], R[2][2], t[2], v[0], v[1], v[2]);
    Vec3Equal(lhs, rhs);
  }

  lemma AffineRow(g0: real, g1: real, g2: real, g3: real, a0: real, a1: real, a2: real, t: real,
                  v0: real, v1: real, v2: real)
    requires g0 == a0 && g1 == a1 && g2 == a2 && g3 == t
    ensures g0 * v0 + g1 * v1 + g2 * v2 + g3 == a0 * v0 + a1 * v1 + a2 * v2 + t
  {
  }

  /** [R | t; 0 0 0 1] applied to a direction is R n. */
  lemma GammaOfVector(R: Mat3, t: Vec3, n: Vec3)
    ensures MultiplyVector(GammaOf(R, t), n) == MulVec3(R, n)
  {
    var g := GammaOf(R, t);
    var lhs := MultiplyVector(g, n);
    var rhs := MulVec3(R, n);
    AffineRow(g[0][0], g[0][1], g[0][2], 0.0, R[0][0], R[0][1], R[0][2], 0.0, n[0], n[1], n[2]);
    AffineRow(g[1][0], g[1][1], g[1][2], 0.0, R[1][0], R[1][1], R[1][2], 0.0, n[0], n[1], n[2]);
    AffineRow(g[2][0], g[2][1], g[2][2], 0.0, R[2][0], R[2][1], R[2][2], 0.0, n[0], n[1], n[2]);
    Vec3Equal(lhs, rhs);
  }

  /** Normals are rotated by R and never translated. */
  lemma NormalIsRotated(m: Mat4, svd: Mat3 -> Svd3, n: Vec3)
    ensures MultiplyVector(Gamma(m, svd), n) == MulVec3(Rotation(m, svd), n)
  {
    GammaOfVector(Rotation(m, svd), GammaTranslation(m, svd), n);
  }

  /** A vertex whose first slot is the sentinel keeps mat4 = I, so M = I and
      t = 0: it is only multiplied by the R the SVD returns for the identity. */
  lemma UnboundVertex(bones: seq<Mat4>, slots: seq<OmegaWithIndex>, v: Vec3,
                      svd: Mat3 -> Svd3)
    requires |slots| > 0 && slots[0].boneIndex < 0
    ensures SlotsInRange(|bones|, slots)
    ensures Blend(bones, slots) == Identity4
    ensures CrossCovariance(Blend(bones, slots)) == Identity3
    ensures GammaTranslation(Blend(bones, slots), svd) == ZeroVec3
    ensures DeformedPosition(bones, slots, v, svd)
            == MulVec3(Rotation(Identity4, svd), v)
  {
    var m := Identity4;
    assert TranslationColumn(m) == ZeroVec3;
    assert BottomRow(m) == ZeroVec3;
    var M := CrossCovariance(m);
    forall r | 0 <= r < 3 ensures M[r] == Identity3[r] {
    }
    PositionAboutBlendedCentre(m, svd, v);
  }

  /** Q = mat4[0..2, 0..2], copied entry by entry. */
  method ExtractUpperBlock(mat4: Mat4) returns (Qi: Mat3)
    ensures forall r, c :: 0 <= r < 3 && 0 <= c < 3 ==> Qi[r][c] == mat4[r][c]
    ensures Qi == UpperBlock(mat4)
  {
    Qi := Zero3;
    for row := 0 to 3
      invariant forall r, c :: 0 <= r < row && 0 <= c < 3 ==> Qi[r][c] == mat4[r][c]
    {
      for col := 0 to 3
        invariant forall r, c :: 0 <= r < row && 0 <= c < 3 ==> Qi[r][c] == mat4[r][c]
        invariant forall c :: 0 <= c < col ==> Qi[row][c] == mat4[row][c]
      {
        Qi := Qi[row := Qi[row][col := mat4[row][col]]];
      }
    }
    forall r | 0 <= r < 3 ensures Qi[r] == UpperBlock(mat4)[r] {
    }
  }

  /** gamma starts as the zero matrix; R fills the upper-left block, t column
      3, and entry [3,3] is set to one, so the bottom row is (0, 0, 0, 1). */
  method AssembleGamma(R: Mat3, t: Vec3) returns (gamma: Mat4)
    ensures forall r, c :: 0 <= r < 3 && 0 <= c < 3 ==> gamma[r][c] == R[r][c]
    ensures forall r :: 0 <= r < 3 ==> gamma[r][3] == t[r]
    ensures gamma[3] == [0.0, 0.0, 0.0, 1.0]
    ensures gamma == GammaOf(R, t)
  {
    gamma := Zero4;
    for row := 0 to 3
      invariant forall r, c :: 0 <= r < row && 0 <= c < 3 ==> gamma[r][c] == R[r][c]
      invariant forall r :: 0 <= r < 3 ==> gamma[r][3] == 0.0
      invariant forall r, c :: row <= r < 4 && 0 <= c < 4 ==> gamma[r][c] == 0.0
    {
      for col := 0 to 3
        invariant forall r, c :: 0 <= r < row && 0 <= c < 3 ==> gamma[r][c] == R[r][c]
        invariant forall c :: 0 <= c < col ==> gamma[row][c] == R[row][c]
        invariant forall r :: 0 <= r < 3 ==> gamma[r][3] == 0.0
        invariant forall c :: col <= c < 4 ==> gamma[row][c] == 0.0
        invariant forall r, c :: row < r < 4 && 0 <= c < 4 ==> gamma[r][c] == 0.0
      {
        gamma := gamma[row := gamma[row][col := R[row][col]]];
      }
    }
    gamma := gamma[0 := gamma[0][3 := t[0]]];
    gamma := gamma[1 := gamma[1][3 := t[1]]];
    gamma := gamma[2 := gamma[2][3 := t[2]]];
    gamma := gamma[3 := gamma[3][3 := 1.0]];
    forall r | 0 <= r < 4 ensures gamma[r] == GammaOf(R, t)[r] {
    }
  }

  /** The body of the per-vertex loop of UpdateMeshOnCPU. */
  method DeformVertex(bones: seq<Mat4>, slots: seq<OmegaWithIndex>, v: Vec3, n: Vec3,
                      svd: Mat3 -> Svd3) returns (vertex: Vec3, normal: Vec3)
    requires |slots| == MaxOmegaCount
    requires SlotsInRange(|bones|, slots)
    ensures vertex == DeformedPosition(bones, slots, v, svd)
    ensures normal == DeformedNormal(bones, slots, n, svd)
  {
    var mat4 := BlendOmegas(bones, slots);
    var Qi := ExtractUpperBlock(mat4);
    var qi: Vec3 := [mat4[0][3], mat4[1][3], mat4[2][3]];
    var pi: Vec3 := [mat4[3][0], mat4[3][1], mat4[3][2]];
    var qiPiT := Outer3(qi, pi);
    var M := Sub3(Qi, qiPiT);
    var factors := svd(M);
    var R := Mul3(factors.u, factors.vt);
    var ti := Vec3Sub(qi, MulVec3(R, pi));
    var gamma := AssembleGamma(R, ti);
    vertex := MultiplyPoint3x4(gamma, v);
    normal := MultiplyVector(gamma, n);
  }

  // ------------------------------------------------------------------ bounds

  /** Unity's axis-aligned Bounds, as its min and max corners. */
  datatype Bounds = Bounds(min: Vec3, max: Vec3)

  /** `new Bounds()`: centre and size zero, so both corners are the origin. */
  const OriginBounds: Bounds := Bounds(ZeroVec3, ZeroVec3)

  function Min(a: real, b: real): real { if a <= b then a else b }
  function Max(a: real, b: real): real { if a >= b then a else b }

  /** Bounds.Encapsulate: grow the box to include p. */
  function Encapsulate(b: Bounds, p: Vec3): Bounds {
    Bounds([Min(b.min[0], p[0]), Min(b.min[1], p[1]), Min(b.min[2], p[2])],
           [Max(b.max[0], p[0]), Max(b.max[1], p[1]), Max(b.max[2], p[2])])
  }

  predicate Contains(b: Bounds, p: Vec3) {
    forall c :: 0 <= c < 3 ==> b.min[c] <= p[c] <= b.max[c]
  }

  /** The box obtained by encapsulating pts, in order, into `new Bounds()`. */
  function BoundsOf(pts: seq<Vec3>): Bounds {
    if |pts| == 0 then OriginBounds
    else Encapsulate(BoundsOf(pts[..|pts| - 1]), pts[|pts| - 1])
  }

  /** Component c of the grown box is the min/max of the old face and p[c]. */
  lemma EncapsulateAt(b: Bounds, p: Vec3, c: int)
    requires 0 <= c < 3
    ensures Encapsulate(b, p).min[c] == Min(b.min[c], p[c])
    ensures Encapsulate(b, p).max[c] == Max(b.max[c], p[c])
  {
  }

  /** The box contains every point and, because it starts from `new Bounds()`,
      the origin as well. */
  lemma {:induction false} BoundsOfContains(pts: seq<Vec3>)
    ensures forall i :: 0 <= i < |pts| ==> Contains(BoundsOf(pts), pts[i])
    ensures Contains(BoundsOf(pts), ZeroVec3)
  {
    if |pts| > 0 {
      var init := pts[..|pts| - 1];
      var last := pts[|pts| - 1];
      BoundsOfContains(init);
      var b0 := BoundsOf(init);
      var b := BoundsOf(pts);
      assert b == Encapsulate(b0, last);
      forall c | 0 <= c < 3
        ensures b.min[c] <= b0.min[c] && b.min[c] <= last[c]
        ensures b0.max[c] <= b.max[c] && last[c] <= b.max[c]
      {
        EncapsulateAt(b0, last, c);
      }
      forall i | 0 <= i < |pts| ensures Contains(b, pts[i]) {
        if i < |pts| - 1 {
          assert pts[i] == init[i];
          assert Contains(b0, init[i]);
        }
      }
      assert Contains(b0, ZeroVec3);
    }
  }

  /** Each face of the box lies on one of the points or on the origin. */
  lemma {:induction false} BoundsOfTight(pts: seq<Vec3>)
    ensures forall c :: 0 <= c < 3 ==>
              (BoundsOf(pts).min[c] == 0.0 || exists i :: 0 <= i < |pts| && pts[i][c] == BoundsOf(pts).min[c])
    ensures forall c :: 0 <= c < 3 ==>
              (BoundsOf(pts).max[c] == 0.0 || exists i :: 0 <= i < |pts| && pts[i][c] == BoundsOf(pts).max[c])
  {
    if |pts| > 0 {
      var init := pts[..|pts| - 1];
      var last := pts[|pts| - 1];
      BoundsOfTight(init);
      var b0 := BoundsOf(init);
      var b := BoundsOf(pts);
      assert b == Encapsulate(b0, last);
      forall c | 0 <= c < 3
        ensures b.min[c] == 0.0 || exists i :: 0 <= i < |pts| && pts[i][c] == b.min[c]
        ensures b.max[c] == 0.0 || exists i :: 0 <= i < |pts| && pts[i][c] == b.max[c]
      {
        EncapsulateAt(b0, last, c);
        if b.min[c] != 0.0 && b.min[c] != last[c] {
          var i :| 0 <= i < |init| && init[i][c] == b0.min[c];
          assert pts[i][c] == b.min[c];
        }
        if b.max[c] != 0.0 && b.max[c] != last[c] {
          var i :| 0 <= i < |init| && init[i][c] == b0.max[c];
          assert pts[i][c] == b.max[c];
        }
      }
    }
  }
}

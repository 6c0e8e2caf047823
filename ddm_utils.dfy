/**
 * The closed-form omega of Direct Delta Mush (class DDMUtils): psi, p_i, w'
 * and omega as sums over dense input matrices, each memoised behind an array
 * of validity flags. The sums are specification functions; the class methods
 * compute them with the source's loops and keep every valid cache entry
 * equal to its definition.
 */
module ClosedFormOmega {
  import opened LinAlg

  /** The public inputs of DDMUtils: n vertices and numTransforms bones, the
      n x n matrices C and B, the n x numTransforms skin weights W, the bind-pose
      positions V (n rows of at least three coordinates) and the blend
      factor dmBlend. */
  datatype OmegaInputs = OmegaInputs(n: nat, dmBlend: real, numTransforms: nat,
                                     C: Mat, W: Mat, B: Mat, V: Mat)
  {
    predicate Wf() {
      && IsMat(C, n, n)
      && IsMat(W, n, numTransforms)
      && IsMat(B, n, n)
      && |V| == n && (forall k :: 0 <= k < n ==> |V[k]| >= 3)
    }
  }

  // ------------------------------------------------------------------- psi

  /** h_k = (V[k,0], V[k,1], V[k,2], 1). */
  function Homogeneous(inp: OmegaInputs, k: nat): Vec4
    requires inp.Wf() && k < inp.n
  {
    [inp.V[k][0], inp.V[k][1], inp.V[k][2], 1.0]
  }

  /** Whether vertex k contributes to psi(i, j): both factors are non-zero. */
  predicate PsiActive(inp: OmegaInputs, i: nat, j: nat, k: nat)
    requires inp.Wf() && i < inp.n && j < inp.numTransforms && k < inp.n
  {
    inp.W[k][j] != 0.0 && inp.B[k][i] != 0.0
  }

  /** The scalar factor B[k,i] * W[k,j] of vertex k's term. */
  function PsiWeight(inp: OmegaInputs, i: nat, j: nat, k: nat): real
    requires inp.Wf() && i < inp.n && j < inp.numTransforms && k < inp.n
  {
    inp.B[k][i] * inp.W[k][j]
  }

  /** (B[k,i] * W[k,j]) * h_k h_k^T. */
  function PsiTerm(inp: OmegaInputs, i: nat, j: nat, k: nat): Mat4
    requires inp.Wf() && i < inp.n && j < inp.numTransforms && k < inp.n
  {
    Scale4(PsiWeight(inp, i, j, k), Outer4(Homogeneous(inp, k), Homogeneous(inp, k)))
  }

  /** The sum of the active terms over the first k vertices. */
  function PsiSum(inp: OmegaInputs, i: nat, j: nat, k: nat): Mat4
    requires inp.Wf() && i < inp.n && j < inp.numTransforms && k <= inp.n
  {
    if k == 0 then Zero4
    else if PsiActive(inp, i, j, k - 1) then Add4(PsiSum(inp, i, j, k - 1), PsiTerm(inp, i, j, k - 1))
    else PsiSum(inp, i, j, k - 1)
  }

  /** psi(i, j) = sum_{k<n, W[k,j]!=0 && B[k,i]!=0} B[k,i] W[k,j] h_k h_k^T. */
  function Psi(inp: OmegaInputs, i: nat, j: nat): Mat4
    requires inp.Wf() && i < inp.n && j < inp.numTransforms
  {
    PsiSum(inp, i, j, inp.n)
  }

  /** sum_{m<k} B[m,i] W[m,j], over every vertex. */
  function WeightSum(inp: OmegaInputs, i: nat, j: nat, k: nat): real
    requires inp.Wf() && i < inp.n && j < inp.numTransforms && k <= inp.n
  {
    if k == 0 then 0.0 else WeightSum(inp, i, j, k - 1) + inp.B[k - 1][i] * inp.W[k - 1][j]
  }

  /** sum_{m<k} B[m,i] W[m,j] V[m,r], over every vertex. */
  function PositionSum(inp: OmegaInputs, i: nat, j: nat, r: nat, k: nat): real
    requires inp.Wf() && i < inp.n && j < inp.numTransforms && r < 3 && k <= inp.n
  {
    if k == 0 then 0.0
    else PositionSum(inp, i, j, r, k - 1) + inp.B[k - 1][i] * inp.W[k - 1][j] * inp.V[k - 1][r]
  }

  lemma {:induction false} PsiSumSymmetric(inp: OmegaInputs, i: nat, j: nat, k: nat)
    requires inp.Wf() && i < inp.n && j < inp.numTransforms && k <= inp.n
    ensures Symmetric4(PsiSum(inp, i, j, k))
  {
    if k > 0 {
      PsiSumSymmetric(inp, i, j, k - 1);
      if PsiActive(inp, i, j, k - 1) {
        ScaledOuterSymmetric(PsiWeight(inp, i, j, k - 1), Homogeneous(inp, k - 1));
        AddSymmetric(PsiSum(inp, i, j, k - 1), PsiTerm(inp, i, j, k - 1));
      }
    }
  }

  /** psi(i, j) is symmetric. */
  lemma PsiIsSymmetric(inp: OmegaInputs, i: nat, j: nat)
    requires inp.Wf() && i < inp.n && j < inp.numTransforms
    ensures Symmetric4(Psi(inp, i, j))
  {
    PsiSumSymmetric(inp, i, j, inp.n);
  }

  lemma {:induction false} PsiSumCorner(inp: OmegaInputs, i: nat, j: nat, k: nat)
    requires inp.Wf() && i < inp.n && j < inp.numTransforms && k <= inp.n
    ensures PsiSum(inp, i, j, k)[3][3] == WeightSum(inp, i, j, k)
  {
    if k > 0 {
      PsiSumCorner(inp, i, j, k - 1);
    }
  }

  lemma {:induction false} PsiSumColumn(inp: OmegaInputs, i: nat, j: nat, r: nat, k: nat)
    requires inp.Wf() && i < inp.n && j < inp.numTransforms && r < 3 && k <= inp.n
    ensures PsiSum(inp, i, j, k)[r][3] == PositionSum(inp, i, j, r, k)
  {
    if k > 0 {
      PsiSumColumn(inp, i, j, r, k - 1);
    }
  }

  /** The homogeneous corner of psi(i, j) is the total weight sum B W, and its
      last column (and, by symmetry, row) holds the weighted position sums
      sum B W V[*,r]. Skipping the zero terms changes neither. */
  lemma PsiWeightEntries(inp: OmegaInputs, i: nat, j: nat)
    requires inp.Wf() && i < inp.n && j < inp.numTransforms
    ensures Psi(inp, i, j)[3][3] == WeightSum(inp, i, j, inp.n)
    ensures forall r :: 0 <= r < 3 ==>
              Psi(inp, i, j)[r][3] == PositionSum(inp, i, j, r, inp.n)
              && Psi(inp, i, j)[3][r] == PositionSum(inp, i, j, r, inp.n)
  {
    PsiSumCorner(inp, i, j, inp.n);
    PsiIsSymmetric(inp, i, j);
    forall r | 0 <= r < 3
      ensures Psi(inp, i, j)[r][3] == PositionSum(inp, i, j, r, inp.n)
    {
      PsiSumColumn(inp, i, j, r, inp.n);
    }
  }

  // ------------------------------------------------------------- w' and p_i

  /** sum_{m<k} W[m,j] C[m,i]. */
  function WPrimeSum(inp: OmegaInputs, i: nat, j: nat, k: nat): real
    requires inp.Wf() && i < inp.n && j < inp.numTransforms && k <= inp.n
  {
    if k == 0 then 0.0 else WPrimeSum(inp, i, j, k - 1) + inp.W[k - 1][j] * inp.C[k - 1][i]
  }

  /** w'(i, j) = sum_{k<n} W[k,j] C[k,i]. */
  function WPrime(inp: OmegaInputs, i: nat, j: nat): real
    requires inp.Wf() && i < inp.n && j < inp.numTransforms
  {
    WPrimeSum(inp, i, j, inp.n)
  }

  /** Rows 0..2 of the last column of a 4x4 matrix. */
  function LastColumn3(m: Mat4): Vec3 {
    [m[0][3], m[1][3], m[2][3]]
  }

  /** sum_{b<k} psi(i, b)[0..2, 3]. */
  function PiSum(inp: OmegaInputs, i: nat, k: nat): Vec3
    requires inp.Wf() && i < inp.n && k <= inp.numTransforms
  {
    if k == 0 then ZeroVec3 else Vec3Add(PiSum(inp, i, k - 1), LastColumn3(Psi(inp, i, k - 1)))
  }

  /** p_i = sum_{b<numTransforms} psi(i, b)[0..2, 3]. */
  function Pi(inp: OmegaInputs, i: nat): Vec3
    requires inp.Wf() && i < inp.n
  {
    PiSum(inp, i, inp.numTransforms)
  }

  /** sum_{b<k} sum_{m<n} B[m,i] W[m,b] V[m,r]. */
  function PiFromWeights(inp: OmegaInputs, i: nat, r: nat, k: nat): real
    requires inp.Wf() && i < inp.n && r < 3 && k <= inp.numTransforms
  {
    if k == 0 then 0.0 else PiFromWeights(inp, i, r, k - 1) + PositionSum(inp, i, k - 1, r, inp.n)
  }

  lemma {:induction false} PiSumFromWeights(inp: OmegaInputs, i: nat, r: nat, k: nat)
    requires inp.Wf() && i < inp.n && r < 3 && k <= inp.numTransforms
    ensures PiSum(inp, i, k)[r] == PiFromWeights(inp, i, r, k)
  {
    if k > 0 {
      PiSumFromWeights(inp, i, r, k - 1);
      PsiWeightEntries(inp, i, k - 1);
    }
  }

  /** p_i[r] is the weighted position sum over all bones and vertices:
      sum_b sum_m B[m,i] W[m,b] V[m,r]. */
  lemma PiIsWeightedPosition(inp: OmegaInputs, i: nat, r: nat)
    requires inp.Wf() && i < inp.n && r < 3
    ensures Pi(inp, i)[r] == PiFromWeights(inp, i, r, inp.numTransforms)
  {
    PiSumFromWeights(inp, i, r, inp.numTransforms);
  }

  // ----------------------------------------------------------------- omega

  /** p_i p_i^T in the upper-left 3x3 block, zeros in row and column 3. */
  function PiBlock(inp: OmegaInputs, i: nat): Mat4
    requires inp.Wf() && i < inp.n
  {
    Embed3(Outer3(Pi(inp, i), Pi(inp, i)))
  }

  /** The factor dmBlend * w'(i, j) of the p_i block. */
  function BlockWeight(inp: OmegaInputs, i: nat, j: nat): real
    requires inp.Wf() && i < inp.n && j < inp.numTransforms
  {
    inp.dmBlend * WPrime(inp, i, j)
  }

  /** omega(i, j) = (1 - dmBlend) psi(i, j) + (dmBlend w'(i, j)) P. */
  function Omega(inp: OmegaInputs, i: nat, j: nat): Mat4
    requires inp.Wf() && i < inp.n && j < inp.numTransforms
  {
    Add4(Scale4(1.0 - inp.dmBlend, Psi(inp, i, j)),
         Scale4(BlockWeight(inp, i, j), PiBlock(inp, i)))
  }

  /** With no blending omega is psi. */
  lemma OmegaWithoutBlend(inp: OmegaInputs, i: nat, j: nat)
    requires inp.Wf() && i < inp.n && j < inp.numTransforms
    requires inp.dmBlend == 0.0
    ensures Omega(inp, i, j) == Psi(inp, i, j)
  {
    var o := Omega(inp, i, j);
    var p := Psi(inp, i, j);
    forall r | 0 <= r < 4 ensures o[r] == p[r] {
    }
  }

  /** omega(i, j) is symmetric, and its last column is the scaled last column
      of psi: the p_i block contributes nothing there. */
  lemma OmegaShape(inp: OmegaInputs, i: nat, j: nat)
    requires inp.Wf() && i < inp.n && j < inp.numTransforms
    ensures Symmetric4(Omega(inp, i, j))
    ensures forall r :: 0 <= r < 4 ==>
              Omega(inp, i, j)[r][3] == (1.0 - inp.dmBlend) * Psi(inp, i, j)[r][3]
  {
    PsiIsSymmetric(inp, i, j);
    OuterSymmetric3(Pi(inp, i));
    EmbedSymmetric(Outer3(Pi(inp, i), Pi(inp, i)));
    AddScaleSymmetric(1.0 - inp.dmBlend, Psi(inp, i, j), BlockWeight(inp, i, j), PiBlock(inp, i));
  }

  // ------------------------------------------------ what the memo depends on

  /** Two input records that differ at most in the blend factor. */
  predicate SameButBlend(a: OmegaInputs, b: OmegaInputs) {
    a.n == b.n && a.numTransforms == b.numTransforms
    && a.C == b.C && a.W == b.W && a.B == b.B && a.V == b.V
  }

  lemma {:induction false} PsiSumIgnoresBlend(a: OmegaInputs, b: OmegaInputs, i: nat, j: nat, k: nat)
    requires a.Wf() && SameButBlend(a, b) && i < a.n && j < a.numTransforms && k <= a.n
    ensures b.Wf() && PsiSum(b, i, j, k) == PsiSum(a, i, j, k)
  {
    if k > 0 {
      PsiSumIgnoresBlend(a, b, i, j, k - 1);
      assert Homogeneous(b, k - 1) == Homogeneous(a, k - 1);
      assert PsiWeight(b, i, j, k - 1) == PsiWeight(a, i, j, k - 1);
      assert PsiTerm(b, i, j, k - 1) == PsiTerm(a, i, j, k - 1);
    }
  }

  lemma {:induction false} WPrimeSumIgnoresBlend(a: OmegaInputs, b: OmegaInputs, i: nat, j: nat, k: nat)
    requires a.Wf() && SameButBlend(a, b) && i < a.n && j < a.numTransforms && k <= a.n
    ensures b.Wf() && WPrimeSum(b, i, j, k) == WPrimeSum(a, i, j, k)
  {
    if k > 0 {
      WPrimeSumIgnoresBlend(a, b, i, j, k - 1);
    }
  }

  lemma {:induction false} PiSumIgnoresBlend(a: OmegaInputs, b: OmegaInputs, i: nat, k: nat)
    requires a.Wf() && SameButBlend(a, b) && i < a.n && k <= a.numTransforms
    ensures b.Wf() && PiSum(b, i, k) == PiSum(a, i, k)
  {
    if k > 0 {
      PiSumIgnoresBlend(a, b, i, k - 1);
      PsiSumIgnoresBlend(a, b, i, k - 1, a.n);
    }
  }

  /** dm_blend enters only compute_omega: psi, w' and p_i, the three memoised
      quantities, are the same for every blend factor. */
  lemma MemoIgnoresBlend(a: OmegaInputs, b: OmegaInputs)
    requires a.Wf() && SameButBlend(a, b)
    ensures b.Wf()
    ensures forall i, j :: 0 <= i < a.n && 0 <= j < a.numTransforms ==>
              Psi(b, i, j) == Psi(a, i, j) && WPrime(b, i, j) == WPrime(a, i, j)
    ensures forall i :: 0 <= i < a.n ==> Pi(b, i) == Pi(a, i)
  {
    forall i, j | 0 <= i < a.n && 0 <= j < a.numTransforms
      ensures Psi(b, i, j) == Psi(a, i, j) && WPrime(b, i, j) == WPrime(a, i, j)
    {
      PsiSumIgnoresBlend(a, b, i, j, a.n);
      WPrimeSumIgnoresBlend(a, b, i, j, a.n);
    }
    forall i | 0 <= i < a.n ensures Pi(b, i) == Pi(a, i) {
      PiSumIgnoresBlend(a, b, i, a.numTransforms);
    }
  }

  // ------------------------------------------------------------- the class

  /** The flag arrays of InitCache: `rows` x `cols` psi and w' flags and
      `rows` p_i flags, every one cleared by the nested loop. */
  method ClearedFlags(rows: nat, cols: nat)
    returns (psisValid: array2<bool>, wpsValid: array2<bool>, psValid: array<bool>)
    ensures fresh(psisValid) && fresh(wpsValid) && fresh(psValid)
    ensures psisValid.Length0 == rows && psisValid.Length1 == cols
    ensures wpsValid.Length0 == rows && wpsValid.Length1 == cols
    ensures psValid.Length == rows
    ensures psisValid != wpsValid
    ensures forall a, b :: 0 <= a < rows && 0 <= b < cols ==> !psisValid[a, b] && !wpsValid[a, b]
    ensures forall a :: 0 <= a < rows ==> !psValid[a]
  {
    psisValid := new bool[rows, cols];
    wpsValid := new bool[rows, cols];
    psValid := new bool[rows];
    for vi := 0 to rows
      modifies psisValid, wpsValid, psValid
      invariant forall a, b :: 0 <= a < vi && 0 <= b < cols ==> !psisValid[a, b]
      invariant forall a, b :: 0 <= a < vi && 0 <= b < cols ==> !wpsValid[a, b]
      invariant forall a :: 0 <= a < vi ==> !psValid[a]
    {
      for bi := 0 to cols
        modifies psisValid, wpsValid
        invariant forall a, b :: 0 <= a < vi && 0 <= b < cols ==> !psisValid[a, b]
        invariant forall a, b :: 0 <= a < vi && 0 <= b < cols ==> !wpsValid[a, b]
        invariant forall b :: 0 <= b < bi ==> !psisValid[vi, b]
        invariant forall b :: 0 <= b < bi ==> !wpsValid[vi, b]
      {
        psisValid[vi, bi] := false;
        wpsValid[vi, bi] := false;
      }
      psValid[vi] := false;
    }
  }

  class DDMUtils {
    var n: nat
    var dmBlend: real
    var numTransforms: nat
    var C: Mat
    var W: Mat
    var B: Mat
    var V: Mat

    var psis: array2?<Mat4>
    var psisValid: array2?<bool>
    var wps: array2?<real>
    var wpsValid: array2?<bool>
    var ps: array?<Vec3>
    var psValid: array?<bool>

    function Inputs(): OmegaInputs
      reads this
    {
      OmegaInputs(n, dmBlend, numTransforms, C, W, B, V)
    }

    /** The memo arrays exist and have the shapes InitCache gives them. */
    ghost predicate Allocated()
      reads this
    {
      && psis != null && psisValid != null && wps != null && wpsValid != null
      && ps != null && psValid != null
      && psis.Length0 == n && psis.Length1 == numTransforms
      && psisValid.Length0 == n && psisValid.Length1 == numTransforms
      && wps.Length0 == n && wps.Length1 == numTransforms
      && wpsValid.Length0 == n && wpsValid.Length1 == numTransforms
      && ps.Length == n && psValid.Length == n
      && psisValid != wpsValid
    }

    /** Every psi entry whose flag is set holds psi. */
    ghost predicate PsisSound()
      requires Inputs().Wf() && Allocated()
      reads this, psis, psisValid
    {
      forall a, b :: 0 <= a < n && 0 <= b < numTransforms && psisValid[a, b] ==>
        psis[a, b] == Psi(Inputs(), a, b)
    }

    /** Every w' entry whose flag is set holds w'. */
    ghost predicate WpsSound()
      requires Inputs().Wf() && Allocated()
      reads this, wps, wpsValid
    {
      forall a, b :: 0 <= a < n && 0 <= b < numTransforms && wpsValid[a, b] ==>
        wps[a, b] == WPrime(Inputs(), a, b)
    }

    /** Every p_i entry whose flag is set holds p_i. */
    ghost predicate PsSound()
      requires Inputs().Wf() && Allocated()
      reads this, ps, psValid
    {
      forall a :: 0 <= a < n && psValid[a] ==> ps[a] == Pi(Inputs(), a)
    }

    /** The cache invariant: every entry whose flag is set holds the uncached
        definition. */
    ghost predicate Valid()
      reads this, psis, psisValid, wps, wpsValid, ps, psValid
    {
      && Inputs().Wf()
      && Allocated()
      && PsisSound() && WpsSound() && PsSound()
    }

    /** The inputs are public fields; the memo arrays do not exist until
        InitCache runs. */
    constructor (n: nat, dmBlend: real, numTransforms: nat, C: Mat, W: Mat, B: Mat, V: Mat)
      ensures Inputs() == OmegaInputs(n, dmBlend, numTransforms, C, W, B, V)
      ensures psis == null && psisValid == null && wps == null && wpsValid == null
      ensures ps == null && psValid == null
    {
      this.n, this.dmBlend, this.numTransforms := n, dmBlend, numTransforms;
      this.C, this.W, this.B, this.V := C, W, B, V;
      psis, psisValid, wps, wpsValid, ps, psValid := null, null, null, null, null, null;
    }

    /** A caller may assign the public field dm_blend at any time: the memo
        stays sound, since none of its entries depends on the blend. */
    twostate lemma BlendChangeKeepsValid()
      requires old(Valid())
      requires n == old(n) && numTransforms == old(numTransforms)
      requires C == old(C) && W == old(W) && B == old(B) && V == old(V)
      requires psis == old(psis) && psisValid == old(psisValid) && wps == old(wps)
      requires wpsValid == old(wpsValid) && ps == old(ps) && psValid == old(psValid)
      requires unchanged(psis, psisValid, wps, wpsValid, ps, psValid)
      ensures Valid()
    {
      MemoIgnoresBlend(old(Inputs()), Inputs());
    }

    /** Fresh memo arrays with every flag cleared. */
    method InitCache()
      modifies this`psis, this`psisValid, this`wps, this`wpsValid, this`ps, this`psValid
      ensures Allocated()
      ensures fresh(psis) && fresh(psisValid) && fresh(wps) && fresh(wpsValid)
      ensures fresh(ps) && fresh(psValid)
      ensures forall vi, bi :: 0 <= vi < n && 0 <= bi < numTransforms ==>
                !psisValid[vi, bi] && !wpsValid[vi, bi]
      ensures forall vi :: 0 <= vi < n ==> !psValid[vi]
      ensures Inputs().Wf() ==> PsisSound() && WpsSound() && PsSound()
    {
      psis := new Mat4[n, numTransforms];
      wps := new real[n, numTransforms];
      ps := new Vec3[n];
      psisValid, wpsValid, psValid := ClearedFlags(n, numTransforms);
    }

    /** compute_psi: a hit returns the stored matrix and changes nothing; a
        miss computes the sum and stores it at (i, j) only. */
    method ComputePsi(i: nat, j: nat) returns (res: Mat4)
      requires Valid()
      requires 0 <= i < n && 0 <= j < numTransforms
      modifies psis, psisValid
      ensures Valid()
      ensures res == Psi(Inputs(), i, j)
      ensures psisValid[i, j]
      ensures old(psisValid[i, j]) ==> unchanged(psis, psisValid)
      ensures forall a, b :: 0 <= a < n && 0 <= b < numTransforms && (a != i || b != j) ==>
                psis[a, b] == old(psis[a, b]) && psisValid[a, b] == old(psisValid[a, b])
    {
      if psisValid[i, j] {
        return psis[i, j];
      }
      res := Zero4;
      for k: nat := 0 to n
        invariant res == PsiSum(Inputs(), i, j, k)
      {
        var w := W[k][j];
        var b := B[k][i];
        if w != 0.0 && b != 0.0 {
          var v: Vec4 := [V[k][0], V[k][1], V[k][2], 1.0];
          var hh := Outer4(v, v);
          assert b * w == PsiWeight(Inputs(), i, j, k);
          hh := Scale4(b * w, hh);
          assert v == Homogeneous(Inputs(), k);
          res := Add4(res, hh);
        }
      }
      psis[i, j] := res;
      psisValid[i, j] := true;
    }

    /** compute_pi: memoised like compute_psi; a miss also fills psi(i, b)
        for every bone b and touches no other vertex's entries. */
    method ComputePi(i: nat) returns (sum: Vec3)
      requires Valid()
      requires 0 <= i < n
      modifies psis, psisValid, ps, psValid
      ensures Valid()
      ensures sum == Pi(Inputs(), i)
      ensures psValid[i]
      ensures old(psValid[i]) ==> unchanged(psis, psisValid, ps, psValid)
      ensures !old(psValid[i]) ==> forall b :: 0 <= b < numTransforms ==> psisValid[i, b]
      ensures forall a :: 0 <= a < n && a != i ==> ps[a] == old(ps[a]) && psValid[a] == old(psValid[a])
      ensures forall a, b :: 0 <= a < n && a != i && 0 <= b < numTransforms ==>
                psis[a, b] == old(psis[a, b]) && psisValid[a, b] == old(psisValid[a, b])
    {
      if psValid[i] {
        return ps[i];
      }
      sum := SumPsiColumns(i);
      ps[i] := sum;
      psValid[i] := true;
    }

    /** The loop of compute_pi: the last columns of psi(i, b) summed over
        every bone b, each psi through the memo. */
    method SumPsiColumns(i: nat) returns (sum: Vec3)
      requires Valid()
      requires 0 <= i < n
      modifies psis, psisValid
      ensures Valid()
      ensures sum == Pi(Inputs(), i)
      ensures forall b :: 0 <= b < numTransforms ==> psisValid[i, b]
      ensures forall a, b :: 0 <= a < n && a != i && 0 <= b < numTransforms ==>
                psis[a, b] == old(psis[a, b]) && psisValid[a, b] == old(psisValid[a, b])
    {
      sum := ZeroVec3;
      for k: nat := 0 to numTransforms
        invariant Valid()
        invariant sum == PiSum(Inputs(), i, k)
        invariant forall b :: 0 <= b < k ==> psisValid[i, b]
        invariant forall a, b :: 0 <= a < n && a != i && 0 <= b < numTransforms ==>
                    psis[a, b] == old(psis[a, b]) && psisValid[a, b] == old(psisValid[a, b])
      {
        var psi := ComputePsi(i, k);
        sum := sum[0 := sum[0] + psi[0][3]];
        sum := sum[1 := sum[1] + psi[1][3]];
        sum := sum[2 := sum[2] + psi[2][3]];
      }
    }

    /** compute_w_prime: memoised like compute_psi. */
    method ComputeWPrime(i: nat, j: nat) returns (res: real)
      requires Valid()
      requires 0 <= i < n && 0 <= j < numTransforms
      modifies wps, wpsValid
      ensures Valid()
      ensures res == WPrime(Inputs(), i, j)
      ensures wpsValid[i, j]
      ensures old(wpsValid[i, j]) ==> unchanged(wps, wpsValid)
      ensures forall a, b :: 0 <= a < n && 0 <= b < numTransforms && (a != i || b != j) ==>
                wps[a, b] == old(wps[a, b]) && wpsValid[a, b] == old(wpsValid[a, b])
    {
      if wpsValid[i, j] {
        return wps[i, j];
      }
      res := 0.0;
      for k: nat := 0 to n
        invariant res == WPrimeSum(Inputs(), i, j, k)
      {
        var w := W[k][j];
        var c := C[k][i];
        res := res + w * c;
      }
      wps[i, j] := res;
      wpsValid[i, j] := true;
    }

    /** compute_omega: one expression over the three memoised quantities. It
        touches only vertex i's p_i and psi entries and the w' entry (i, j). */
    method ComputeOmega(i: nat, j: nat) returns (res: Mat4)
      requires Valid()
      requires 0 <= i < n && 0 <= j < numTransforms
      modifies psis, psisValid, wps, wpsValid, ps, psValid
      ensures Valid()
      ensures res == Omega(Inputs(), i, j)
      ensures psValid[i] && psisValid[i, j] && wpsValid[i, j]
      ensures forall a :: 0 <= a < n && a != i ==> ps[a] == old(ps[a]) && psValid[a] == old(psValid[a])
      ensures forall a, b :: 0 <= a < n && a != i && 0 <= b < numTransforms ==>
                psis[a, b] == old(psis[a, b]) && psisValid[a, b] == old(psisValid[a, b])
      ensures forall a, b :: 0 <= a < n && 0 <= b < numTransforms && (a != i || b != j) ==>
                wps[a, b] == old(wps[a, b]) && wpsValid[a, b] == old(wpsValid[a, b])
    {
      ghost var inp := Inputs();
      var pI := ComputePi(i);
      var pIMat := Outer3(pI, pI);
      var pIMat4 := Embed3(pIMat);
      assert pIMat4 == PiBlock(inp, i);
      var psiIJ := ComputePsi(i, j);
      var wp := ComputeWPrime(i, j);
      assert dmBlend * wp == BlockWeight(inp, i, j);
      res := Add4(Scale4(1.0 - dmBlend, psiIJ), Scale4(dmBlend * wp, pIMat4));
    }
  }
}

/**
 * The structure of metricMDS in panglossStruct.cpp: the squared distance
 * matrix, the centring matrix, the double-centred matrix handed to the
 * symmetric eigen-decomposition, and the embedding taken from the
 * eigenvectors with the largest eigenvalues. The eigen-decomposition and the
 * square root are supplied by the caller; everything else is exact.
 */
module Mds {
  import opened Wrappers
  import opened Matrices
  import opened Distance

  predicate HasZeroDiagonal(a: seq<seq<int>>)
    requires IsSquare(a, |a|)
  {
    forall r :: 0 <= r < |a| ==> a[r][r] == 0
  }

  /** The contents of a two-dimensional array, row by row. */
  function Snapshot(a: array2<int>): (s: seq<seq<int>>)
    reads a
    ensures IsSquare(s, a.Length0) || a.Length0 != a.Length1
    ensures |s| == a.Length0
    ensures forall r, c :: 0 <= r < a.Length0 && 0 <= c < a.Length1 ==> |s[r]| == a.Length1 && s[r][c] == a[r, c]
  {
    seq(a.Length0, r requires 0 <= r < a.Length0 reads a =>
      seq(a.Length1, c requires 0 <= c < a.Length1 reads a => a[r, c]))
  }

  /**
   * Step 1, arma::square: every entry squared. The result is non-negative,
   * zero exactly where the input is, and keeps symmetry and a zero diagonal.
   */
  function Square(d: seq<seq<int>>): (p: seq<seq<int>>)
    ensures |p| == |d| && forall r :: 0 <= r < |d| ==> |p[r]| == |d[r]|
    ensures forall r, c :: 0 <= r < |d| && 0 <= c < |d[r]| ==> p[r][c] >= 0 && (p[r][c] == 0 <==> d[r][c] == 0)
    ensures IsSymmetric(d) ==> IsSymmetric(p)
    ensures IsSquare(d, |d|) && HasZeroDiagonal(d) ==> HasZeroDiagonal(p)
  {
    seq(|d|, r requires 0 <= r < |d| => seq(|d[r]|, c requires 0 <= c < |d[r]| => d[r][c] * d[r][c]))
  }

  function Sum(s: seq<real>): real {
    if |s| == 0 then 0.0 else Sum(s[..|s| - 1]) + s[|s| - 1]
  }

  /** Step 2: J = I - (1/n) * ones(n, n). */
  function Centring(n: nat): (j: Matrix)
    ensures IsSquare(j, n) && IsSymmetric(j)
  {
    seq(n, r requires 0 <= r < n => seq(n, c requires 0 <= c < n =>
      (if r == c then 1.0 else 0.0) - 1.0 / (n as real)))
  }

  lemma {:induction false} CentringPrefixSum(n: nat, r: nat, k: nat)
    requires r < n && k <= n
    ensures Sum(Centring(n)[r][..k]) == (if r < k then 1.0 else 0.0) - (k as real) * (1.0 / (n as real))
  {
    if k > 0 {
      CentringPrefixSum(n, r, k - 1);
      assert Centring(n)[r][..k][..k - 1] == Centring(n)[r][..k - 1];
    }
  }

  /** Every row of the centring matrix sums to zero. */
  lemma CentringRowSumsToZero(n: nat, r: nat)
    requires r < n
    ensures Sum(Centring(n)[r]) == 0.0
  {
    CentringPrefixSum(n, r, n);
    assert Centring(n)[r][..n] == Centring(n)[r];
    assert (n as real) * (1.0 / (n as real)) == 1.0;
  }

  /** The product of two n-by-n matrices. */
  function MatMul(a: Matrix, b: Matrix, n: nat): (p: Matrix)
    requires IsSquare(a, n) && IsSquare(b, n)
    ensures IsSquare(p, n)
  {
    seq(n, r requires 0 <= r < n => seq(n, c requires 0 <= c < n => Dot(a[r], Column(b, c))))
  }

  function Scale(k: real, a: Matrix): (s: Matrix)
    ensures |s| == |a| && forall r :: 0 <= r < |a| ==> |s[r]| == |a[r]|
  {
    seq(|a|, r requires 0 <= r < |a| => seq(|a[r]|, c requires 0 <= c < |a[r]| => k * a[r][c]))
  }

  function ToReal(a: seq<seq<int>>): (s: Matrix)
    ensures |s| == |a| && forall r :: 0 <= r < |a| ==> |s[r]| == |a[r]|
  {
    seq(|a|, r requires 0 <= r < |a| => seq(|a[r]|, c requires 0 <= c < |a[r]| => a[r][c] as real))
  }

  /** Step 3: B = -0.5 * J * P * J, evaluated left to right. */
  function DoubleCentre(p: seq<seq<int>>): (b: Matrix)
    requires IsSquare(p, |p|)
    ensures IsSquare(b, |p|)
  {
    var n := |p|;
    var j := Centring(n);
    MatMul(MatMul(Scale(-0.5, j), ToReal(p), n), j, n)
  }

  /** diagmat: s on the diagonal, zero elsewhere. */
  function Diag(s: seq<real>): (d: Matrix)
    ensures IsSquare(d, |s|)
  {
    seq(|s|, r requires 0 <= r < |s| => seq(|s|, c requires 0 <= c < |s| => if r == c then s[r] else 0.0))
  }

  /** fliplr: the columns in reverse order. */
  function FlipLR(a: Matrix, n: nat): (f: Matrix)
    requires IsSquare(a, n)
    ensures IsSquare(f, n)
  {
    seq(n, r requires 0 <= r < n => seq(n, c requires 0 <= c < n => a[r][n - 1 - c]))
  }

  /** cols(0, d - 1): the leading d columns. */
  function LeadingColumns(a: Matrix, n: nat, d: nat): (l: Matrix)
    requires IsSquare(a, n) && d <= n
    ensures |l| == n && forall r :: 0 <= r < n ==> |l[r]| == d
  {
    seq(n, r requires 0 <= r < n => a[r][..d])
  }

  lemma {:induction false} DotWithUnitPrefix(u: seq<real>, v: seq<real>, c: nat, k: nat)
    requires |u| == |v| && c < |v| && k <= |v|
    requires forall i :: 0 <= i < |v| && i != c ==> v[i] == 0.0
    ensures Dot(u[..k], v[..k]) == if c < k then u[c] * v[c] else 0.0
  {
    if k > 0 {
      DotWithUnitPrefix(u, v, c, k - 1);
      assert u[..k][..k - 1] == u[..k - 1] && v[..k][..k - 1] == v[..k - 1];
      assert Dot(u[..k], v[..k]) == Dot(u[..k - 1], v[..k - 1]) + u[k - 1] * v[k - 1];
      if k - 1 != c {
        assert v[k - 1] == 0.0;
      }
    }
  }

  /** Multiplying by a diagonal matrix scales column c by s[c]. */
  lemma MatMulDiag(a: Matrix, s: seq<real>, r: nat, c: nat)
    requires IsSquare(a, |s|) && r < |s| && c < |s|
    ensures MatMul(a, Diag(s), |s|)[r][c] == a[r][c] * s[c]
  {
    var col := Column(Diag(s), c);
    DotWithUnitPrefix(a[r], col, c, |s|);
    assert a[r][..|s|] == a[r] && col[..|s|] == col;
  }

  /**
   * Step 5: fliplr(eigvec * diagmat(roots)).cols(0, d - 1), where roots holds
   * the square roots of the eigenvalues.
   */
  function Embedding(vecs: Matrix, roots: seq<real>, d: nat): (e: Matrix)
    requires IsSquare(vecs, |roots|) && d <= |roots|
    ensures |e| == |roots| && forall r :: 0 <= r < |e| ==> |e[r]| == d
  {
    var n := |roots|;
    LeadingColumns(FlipLR(MatMul(vecs, Diag(roots), n), n), n, d)
  }

  /**
   * The embedding has one row per sample and d columns; column c is the
   * eigenvector of the (c+1)-th largest eigenvalue (eigenvalues come back
   * ascending) scaled by the root of that eigenvalue.
   */
  lemma EmbeddingColumns(vecs: Matrix, roots: seq<real>, d: nat)
    requires IsSquare(vecs, |roots|) && d <= |roots|
    ensures |Embedding(vecs, roots, d)| == |roots|
    ensures forall r :: 0 <= r < |roots| ==> |Embedding(vecs, roots, d)[r]| == d
    ensures forall r, c :: 0 <= r < |roots| && 0 <= c < d ==>
      Embedding(vecs, roots, d)[r][c] == vecs[r][|roots| - 1 - c] * roots[|roots| - 1 - c]
  {
    var n := |roots|;
    forall r, c | 0 <= r < n && 0 <= c < d
      ensures Embedding(vecs, roots, d)[r][c] == vecs[r][n - 1 - c] * roots[n - 1 - c]
    {
      MatMulDiag(vecs, roots, r, n - 1 - c);
    }
  }

  /** B for a population: its squared distance matrix, double-centred. */
  function CentredSquares(m: seq<seq<int>>): (b: Matrix)
    requires IsRectangular(m)
    ensures IsSquare(b, |m|)
  {
    DoubleCentre(Square(ReferenceMatrix(m)))
  }

  /** The eigenvectors of b as the columns of an n-by-n matrix. */
  function EigenVectors(eigvec: (Matrix, nat, nat) -> real, b: Matrix, n: nat): (v: Matrix)
    ensures IsSquare(v, n)
    ensures forall r, c :: 0 <= r < n && 0 <= c < n ==> v[r][c] == eigvec(b, r, c)
  {
    seq(n, r requires 0 <= r < n => seq(n, c requires 0 <= c < n => eigvec(b, r, c)))
  }

  /**
   * e embeds the samples of b in d dimensions: column c is eigenvector n-1-c
   * (the (c+1)-th largest eigenvalue, as eig_sym sorts them ascending) scaled
   * by the square root of that eigenvalue.
   */
  ghost predicate IsEmbeddingOf(e: Matrix, b: Matrix, eigval: (Matrix, nat) -> real,
                                eigvec: (Matrix, nat, nat) -> real, sqrt: real -> real, d: nat)
  {
    d <= |b| && |e| == |b| && (forall r :: 0 <= r < |b| ==> |e[r]| == d) &&
    forall r, c :: 0 <= r < |b| && 0 <= c < d ==>
      e[r][c] == eigvec(b, r, |b| - 1 - c) * sqrt(eigval(b, |b| - 1 - c))
  }

  /** eig_sym returns the eigenvalues of b in ascending order. */
  predicate Ascending(b: Matrix, eigval: (Matrix, nat) -> real) {
    forall k, k' :: 0 <= k <= k' < |b| ==> eigval(b, k) <= eigval(b, k')
  }

  /** The eigenvalue behind embedded column c: eigen-index n-1-c. */
  function ColumnEigenvalue(b: Matrix, eigval: (Matrix, nat) -> real, c: nat): real
    requires c < |b|
  {
    eigval(b, |b| - 1 - c)
  }

  /** The eigenvalues behind the d embedded columns are in descending order: largest first. */
  predicate LargestFirst(b: Matrix, eigval: (Matrix, nat) -> real, d: nat)
    requires d <= |b|
  {
    forall c, c' :: 0 <= c <= c' < d ==> ColumnEigenvalue(b, eigval, c) >= ColumnEigenvalue(b, eigval, c')
  }

  /** The square roots of the n eigenvalues of b, in eig_sym's order. */
  function Roots(eigval: (Matrix, nat) -> real, sqrt: real -> real, b: Matrix, n: nat): (roots: seq<real>)
    ensures |roots| == n && forall k :: 0 <= k < n ==> roots[k] == sqrt(eigval(b, k))
  {
    seq(n, k requires 0 <= k < n => sqrt(eigval(b, k)))
  }

  /**
   * Steps 4 and 5 from the eigen-decomposition of b: the eigenvectors scaled
   * by the roots of their eigenvalues, largest first, leading d columns.
   */
  function EmbedFromEigen(b: Matrix, eigval: (Matrix, nat) -> real, eigvec: (Matrix, nat, nat) -> real,
                          sqrt: real -> real, d: nat): (e: Matrix)
    requires d <= |b| && Ascending(b, eigval)
    ensures IsEmbeddingOf(e, b, eigval, eigvec, sqrt, d)
    ensures LargestFirst(b, eigval, d)
  {
    EigenEmbedding(b, eigval, eigvec, sqrt, d);
    Embedding(EigenVectors(eigvec, b, |b|), Roots(eigval, sqrt, b, |b|), d)
  }

  lemma EigenEmbedding(b: Matrix, eigval: (Matrix, nat) -> real, eigvec: (Matrix, nat, nat) -> real,
                       sqrt: real -> real, d: nat)
    requires d <= |b| && Ascending(b, eigval)
    ensures IsEmbeddingOf(Embedding(EigenVectors(eigvec, b, |b|), Roots(eigval, sqrt, b, |b|), d),
                          b, eigval, eigvec, sqrt, d)
    ensures LargestFirst(b, eigval, d)
  {
    var n := |b|;
    var vecs, roots := EigenVectors(eigvec, b, n), Roots(eigval, sqrt, b, n);
    EmbeddingColumns(vecs, roots, d);
    ScaledColumnsEmbed(Embedding(vecs, roots, d), vecs, roots, b, eigval, eigvec, sqrt, d);
  }

  /** A matrix whose columns are the scaled eigenvectors, largest eigenvalue first, embeds b. */
  lemma ScaledColumnsEmbed(e: Matrix, vecs: Matrix, roots: seq<real>, b: Matrix, eigval: (Matrix, nat) -> real,
                           eigvec: (Matrix, nat, nat) -> real, sqrt: real -> real, d: nat)
    requires d <= |b| && |roots| == |b| && IsSquare(vecs, |b|)
    requires forall r, c :: 0 <= r < |b| && 0 <= c < |b| ==> vecs[r][c] == eigvec(b, r, c)
    requires forall k :: 0 <= k < |b| ==> roots[k] == sqrt(eigval(b, k))
    requires |e| == |b| && forall r :: 0 <= r < |b| ==> |e[r]| == d
    requires forall r, c :: 0 <= r < |b| && 0 <= c < d ==> e[r][c] == vecs[r][|b| - 1 - c] * roots[|b| - 1 - c]
    ensures IsEmbeddingOf(e, b, eigval, eigvec, sqrt, d)
  {
  }

  lemma SnapshotOfReference(dist: array2<int>, m: seq<seq<int>>)
    requires IsRectangular(m) && dist.Length0 == |m| && dist.Length1 == |m|
    requires forall r, c :: 0 <= r < |m| && 0 <= c < |m| ==> dist[r, c] == ReferenceMatrix(m)[r][c]
    ensures Snapshot(dist) == ReferenceMatrix(m)
  {
    var s, ref := Snapshot(dist), ReferenceMatrix(m);
    forall r | 0 <= r < |m| ensures s[r] == ref[r] {
    }
  }

  /**
   * Steps 1 to 3 of metricMDS: the dissimilarity matrix is computed on the
   * thread pool, squared and double-centred. Whatever the schedule, the
   * result is B for the population.
   */
  method CentredDistances(population: seq<seq<int>>, threads: nat) returns (b: Matrix)
    requires IsRectangular(population) && threads >= 1
    ensures b == CentredSquares(population)
  {
    // Step 1
    var dist, _, _, _ := DissimilarityMatrix(population, threads);
    var d := Snapshot(dist);
    SnapshotOfReference(dist, population);
    var p := Square(d);

    // Steps 2 and 3
    b := DoubleCentre(p);
  }

  /**
   * metricMDS. The eigen-decomposition of B (eigval, eigvec: ascending
   * eigenvalues and their eigenvectors as columns) and the square root are
   * parameters. The result has one row per sample and exactly `dimensions`
   * columns, column c being eigenvector n-1-c scaled by the root of its
   * eigenvalue; a `dimensions` outside 1 .. n is the index error cols()
   * raises.
   */
  method MetricMDS(population: seq<seq<int>>, dimensions: int, threads: nat,
                   eigval: (Matrix, nat) -> real, eigvec: (Matrix, nat, nat) -> real,
                   sqrt: real -> real)
    returns (mds: Result<Matrix, string>)
    requires IsRectangular(population) && threads >= 1
    requires Ascending(CentredSquares(population), eigval)
    ensures mds.Success? <==> 1 <= dimensions <= |population|
    ensures mds.Success? ==> IsEmbeddingOf(mds.value, CentredSquares(population), eigval, eigvec, sqrt, dimensions)
    ensures mds.Success? ==> LargestFirst(CentredSquares(population), eigval, dimensions)
  {
    var b := CentredDistances(population, threads);

    // Steps 4 and 5; eig_sym is supplied by the caller
    if 1 <= dimensions <= |population| {
      mds := Success(EmbedFromEigen(b, eigval, eigvec, sqrt, dimensions));
    } else {
      mds := Failure("Mat::cols(): indices out of bounds or incorrectly used");
    }
  }
}

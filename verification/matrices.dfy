/** Matrices held as sequences of rows (or columns) over exact reals. */
module Matrices {

  type Matrix = seq<seq<real>>

  predicate IsSquare<T>(a: seq<seq<T>>, n: nat) {
    |a| == n && forall r :: 0 <= r < n ==> |a[r]| == n
  }

  predicate IsSymmetric<T(==)>(a: seq<seq<T>>) {
    IsSquare(a, |a|) && forall r, c :: 0 <= r < |a| && 0 <= c < |a| ==> a[r][c] == a[c][r]
  }

  function Dot(u: seq<real>, v: seq<real>): real
    requires |u| == |v|
  {
    if |u| == 0 then 0.0 else Dot(u[..|u| - 1], v[..|v| - 1]) + u[|u| - 1] * v[|v| - 1]
  }

  function Column(b: Matrix, c: nat): (col: seq<real>)
    requires forall k :: 0 <= k < |b| ==> c < |b[k]|
    ensures |col| == |b|
  {
    seq(|b|, k requires 0 <= k < |b| => b[k][c])
  }

  /** A dot product with a zero vector is zero. */
  lemma {:induction false} DotZero(u: seq<real>, v: seq<real>)
    requires |u| == |v| && forall i :: 0 <= i < |v| ==> v[i] == 0.0
    ensures Dot(u, v) == 0.0
  {
    if |u| > 0 {
      DotZero(u[..|u| - 1], v[..|v| - 1]);
    }
  }
}

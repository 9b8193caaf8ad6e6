/**
 * Dense real matrices as row sequences: the part of `RealMatrix` the flow
 * code relies on (identity and product of square matrices).
 */
module Linalg {

  type Matrix = seq<seq<real>>

  /** `m` has `rows` rows of `cols` entries each. */
  predicate IsMatrix(m: Matrix, rows: nat, cols: nat) {
    |m| == rows && forall i :: 0 <= i < rows ==> |m[i]| == cols
  }

  predicate IsSquare(m: Matrix, n: nat) {
    IsMatrix(m, n, n)
  }

  function Identity(n: nat): (id: Matrix)
    ensures IsSquare(id, n)
  {
    seq(n, i => seq(n, j => if i == j then 1.0 else 0.0))
  }

  /** Sum over k < len of a[i][k] * b[k][j]. */
  function DotPrefix(a: Matrix, b: Matrix, i: nat, j: nat, len: nat): real
    requires i < |a| && len <= |a[i]| && len <= |b|
    requires forall k :: 0 <= k < len ==> j < |b[k]|
  {
    if len == 0 then 0.0 else DotPrefix(a, b, i, j, len - 1) + a[i][len - 1] * b[len - 1][j]
  }

  /** The matrix product a × b of two n×n matrices. */
  function Mul(a: Matrix, b: Matrix): (c: Matrix)
    requires IsSquare(a, |a|) && IsSquare(b, |a|)
    ensures IsSquare(c, |a|)
  {
    seq(|a|, i requires 0 <= i < |a| => seq(|a|, j requires 0 <= j < |a| => DotPrefix(a, b, i, j, |a|)))
  }

  lemma {:induction false} DotPrefixWithIdentity(a: Matrix, n: nat, i: nat, j: nat, len: nat)
    requires IsSquare(a, n) && i < n && j < n && len <= n
    ensures DotPrefix(a, Identity(n), i, j, len) == if j < len then a[i][j] else 0.0
  {
    if len > 0 {
      DotPrefixWithIdentity(a, n, i, j, len - 1);
    }
  }

  /** The identity is a right unit of the product. */
  lemma MulIdentityRight(a: Matrix, n: nat)
    requires IsSquare(a, n)
    ensures Mul(a, Identity(n)) == a
  {
    var c := Mul(a, Identity(n));
    forall i, j | 0 <= i < n && 0 <= j < n
      ensures c[i][j] == a[i][j]
    {
      DotPrefixWithIdentity(a, n, i, j, n);
    }
    assert forall i :: 0 <= i < n ==> c[i] == a[i];
  }
}

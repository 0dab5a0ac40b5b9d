/** Vectors and matrices over the reals, as the forecast engine uses them: a matrix is a
    sequence of rows, and every sum carries the number of leading terms it ranges over. */
module LinearAlgebra {

  type Vec = seq<real>
  type Mat = seq<seq<real>>

  ghost predicate IsMatrix(A: Mat, rows: nat, cols: nat) {
    |A| == rows && forall r :: 0 <= r < rows ==> |A[r]| == cols
  }

  /** The sum of u[c] * v[c] over the first n positions. */
  function Dot(u: Vec, v: Vec, n: nat): real
    requires n <= |u| && n <= |v|
  {
    if n == 0 then 0.0 else Dot(u, v, n - 1) + u[n - 1] * v[n - 1]
  }

  function Zeros(n: nat): (z: Vec)
    ensures |z| == n && forall i :: 0 <= i < n ==> z[i] == 0.0
  {
    seq(n, i => 0.0)
  }

  /** u - f * v */
  function SubScaled(u: Vec, f: real, v: Vec): (w: Vec)
    requires |u| == |v|
    ensures |w| == |u| && forall i :: 0 <= i < |u| ==> w[i] == u[i] - f * v[i]
  {
    seq(|u|, i requires 0 <= i < |u| => u[i] - f * v[i])
  }

  /** v solves the n equations M v = x. */
  ghost predicate Solves(M: Mat, x: Vec, v: Vec)
    requires IsMatrix(M, |x|, |x|)
  {
    |v| == |x| && forall r :: 0 <= r < |x| ==> Dot(M[r], v, |x|) == x[r]
  }

  /** Two square systems with the same unknowns have the same solutions. */
  ghost predicate SameSolutions(A: Mat, b: Vec, M: Mat, x: Vec)
    requires |b| == |x| && IsMatrix(A, |b|, |b|) && IsMatrix(M, |x|, |x|)
  {
    forall v: Vec :: Solves(A, b, v) <==> Solves(M, x, v)
  }

  lemma {:induction false} DotAgree(u: Vec, u': Vec, v: Vec, v': Vec, n: nat)
    requires n <= |u| && n <= |v| && n <= |u'| && n <= |v'|
    requires forall c :: 0 <= c < n ==> u[c] == u'[c] && v[c] == v'[c]
    ensures Dot(u, v, n) == Dot(u', v', n)
  {
    if n > 0 { DotAgree(u, u', v, v', n - 1); }
  }

  lemma {:induction false} DotSymmetric(u: Vec, v: Vec, n: nat)
    requires n <= |u| && n <= |v|
    ensures Dot(u, v, n) == Dot(v, u, n)
  {
    if n > 0 { DotSymmetric(u, v, n - 1); }
  }

  lemma {:induction false} DotSubScaled(u: Vec, f: real, s: Vec, v: Vec, n: nat)
    requires |u| == |s| && n <= |u| && n <= |v|
    ensures Dot(SubScaled(u, f, s), v, n) == Dot(u, v, n) - f * Dot(s, v, n)
  {
    if n > 0 {
      DotSubScaled(u, f, s, v, n - 1);
      var w, p, q, k := v[n - 1], u[n - 1], s[n - 1], Dot(s, v, n - 1);
      assert (p - f * q) * w == p * w - f * (q * w);
      assert f * (k + q * w) == f * k + f * (q * w);
    }
  }

  lemma {:induction false} DotZeroPrefix(u: Vec, v: Vec, n: nat)
    requires n <= |u| && n <= |v|
    requires forall c :: 0 <= c < n ==> u[c] == 0.0
    ensures Dot(u, v, n) == 0.0
  {
    if n > 0 { DotZeroPrefix(u, v, n - 1); }
  }

  // ---- products the prover should not multiply out

  function Times(x: real, y: real): real { x * y }

  lemma TimesPlus(b: real, x: real, y: real)
    ensures Times(b, x + y) == Times(b, x) + Times(b, y)
    ensures Times(x + y, b) == Times(x, b) + Times(y, b)
  {}

  lemma TimesSwap(q: real, b: real, x: real)
    ensures Times(q, Times(b, x)) == Times(b, Times(q, x))
  {}

  lemma TimesAssociates(x: real, y: real, z: real)
    ensures Times(Times(x, y), z) == Times(x, Times(y, z))
  {}

  lemma TimesGrows(x: real, y: real, z: real)
    requires x <= y && z >= 0.0
    ensures Times(x, z) <= Times(y, z)
  {}

  lemma TimesUnit(b: real)
    ensures Times(b, 1.0) == b && Times(b, 0.0) == 0.0 && Times(1.0, b) == b && Times(0.0, b) == 0.0
  {}

  lemma TimesSign(x: real, y: real)
    ensures x >= 0.0 && y >= 0.0 ==> Times(x, y) >= 0.0
    ensures x > 0.0 && y > 0.0 ==> Times(x, y) > 0.0
  {}

  lemma TimesSquare(x: real)
    ensures Times(x, x) >= 0.0 && (x != 0.0 ==> Times(x, x) > 0.0)
  {
    if x > 0.0 {
      TimesSign(x, x);
    } else if x < 0.0 {
      TimesSign(-x, -x);
    }
  }

  lemma QuotientTimes(a: real, b: real)
    requires b != 0.0
    ensures Times(a / b, b) == a && Times(b, a / b) == a
  {}
}

/** Gaussian elimination with partial pivoting, from linear-solver.ts. */
module LinearSolver {
  import opened LinearAlgebra

  datatype Solution = Solved(v: Vec) | Singular

  const PIVOT_TOLERANCE: real := 0.000000000001

  function Abs(x: real): real { if x < 0.0 then -x else x }

  /** The first k columns are zero below a diagonal of usable pivots. */
  ghost predicate Eliminated(M: Mat, n: nat, k: nat)
    requires IsMatrix(M, n, n)
  {
    && (forall c, r :: 0 <= c < k && c < r < n ==> M[r][c] == 0.0)
    && (forall c :: 0 <= c < k && c < n ==> Abs(M[c][c]) >= PIVOT_TOLERANCE)
  }

  // ---- when the solver gives up

  /** The first row of largest magnitude in column `col` among the rows from col up to r. */
  function PivotRow(M: Mat, col: nat, r: nat): (q: nat)
    requires IsMatrix(M, |M|, |M|) && col < r <= |M|
    ensures col <= q < r && forall s :: col <= s < r ==> Abs(M[s][col]) <= Abs(M[q][col])
  {
    if r == col + 1 then col
    else
      var q := PivotRow(M, col, r - 1);
      if Abs(M[r - 1][col]) > Abs(M[q][col]) then r - 1 else q
  }

  /** The matrix with the pivot row of column `col` in place. */
  function Pivoted(M: Mat, col: nat): (P: Mat)
    requires IsMatrix(M, |M|, |M|) && col < |M|
    ensures IsMatrix(P, |M|, |M|)
    ensures forall r :: col <= r < |M| ==> Abs(P[r][col]) <= Abs(P[col][col])
  {
    var p := PivotRow(M, col, |M|);
    M[col := M[p]][p := M[col]]
  }

  /** The matrix with column `col` cleared below its pivot. */
  function Cleared(P: Mat, col: nat): (N: Mat)
    requires IsMatrix(P, |P|, |P|) && col < |P| && P[col][col] != 0.0
    ensures IsMatrix(N, |P|, |P|)
    ensures forall r :: 0 <= r < |P| ==>
      N[r] == if r <= col then P[r] else SubScaled(P[r], P[r][col] / P[col][col], P[col])
  {
    seq(|P|, r requires 0 <= r < |P| =>
      if r <= col then P[r] else SubScaled(P[r], P[r][col] / P[col][col], P[col]))
  }

  /** From column `col` on, the elimination meets a column without a usable pivot. The right-hand
      side has no say in it. */
  predicate Refused(M: Mat, col: nat)
    requires IsMatrix(M, |M|, |M|)
    decreases |M| - col
  {
    col < |M| &&
    (var P := Pivoted(M, col);
     Abs(P[col][col]) < PIVOT_TOLERANCE || Refused(Cleared(P, col), col + 1))
  }

  /** w has a coordinate of one, M takes it below the tolerance everywhere, and to zero in the
      first `zeros` rows. */
  ghost predicate Vanishes(M: Mat, w: Vec, k: nat, zeros: nat)
    requires IsMatrix(M, |M|, |M|)
  {
    && k < |w| == |M| && w[k] == 1.0
    && (forall r :: 0 <= r < |M| ==> Abs(Dot(M[r], w, |M|)) < PIVOT_TOLERANCE)
    && (forall r :: 0 <= r < zeros && r < |M| ==> Dot(M[r], w, |M|) == 0.0)
  }

  /** A combination of the columns, one of them taken once, is below the tolerance everywhere. */
  ghost predicate NearlySingular(A: Mat)
    requires IsMatrix(A, |A|, |A|)
  {
    exists w: Vec, k: nat :: Vanishes(A, w, k, 0)
  }

  /** A sends some nonzero vector to zero. */
  ghost predicate SingularMatrix(A: Mat)
    requires IsMatrix(A, |A|, |A|)
  {
    exists w: Vec :: w != Zeros(|A|) && Solves(A, Zeros(|A|), w)
  }

  /** B is A but for one column, in which no entry moves by the tolerance. */
  ghost predicate OneColumnOff(A: Mat, B: Mat, k: nat)
    requires IsMatrix(A, |A|, |A|)
  {
    && IsMatrix(B, |A|, |A|) && k < |A|
    && (forall r, c :: 0 <= r < |A| && 0 <= c < |A| && c != k ==> B[r][c] == A[r][c])
    && (forall r :: 0 <= r < |A| ==> Abs(B[r][k] - A[r][k]) < PIVOT_TOLERANCE)
  }

  // ---- the two row operations keep the solution set

  lemma SwapKeepsSolutions(M: Mat, x: Vec, i: nat, j: nat)
    requires IsMatrix(M, |x|, |x|) && i < |x| && j < |x|
    ensures SameSolutions(M, x, M[i := M[j]][j := M[i]], x[i := x[j]][j := x[i]])
  {
    var M', x' := M[i := M[j]][j := M[i]], x[i := x[j]][j := x[i]];
    forall v: Vec ensures Solves(M, x, v) <==> Solves(M', x', v) {
      if Solves(M', x', v) {
        forall r | 0 <= r < |x| ensures Dot(M[r], v, |x|) == x[r] {
          var r' := if r == i then j else if r == j then i else r;
          assert Dot(M'[r'], v, |x|) == x'[r'];
        }
      }
    }
  }

  lemma EliminateKeepsSolutions(M: Mat, x: Vec, p: nat, r: nat, f: real)
    requires IsMatrix(M, |x|, |x|) && p < |x| && r < |x| && p != r
    ensures SameSolutions(M, x, M[r := SubScaled(M[r], f, M[p])], x[r := x[r] - f * x[p]])
  {
    var M', x' := M[r := SubScaled(M[r], f, M[p])], x[r := x[r] - f * x[p]];
    forall v: Vec ensures Solves(M, x, v) <==> Solves(M', x', v) {
      if |v| == |x| {
        DotSubScaled(M[r], f, M[p], v, |x|);
        if Solves(M, x, v) {
          assert Dot(M'[r], v, |x|) == x'[r];
        } else if Solves(M', x', v) {
          assert Dot(M'[p], v, |x|) == x'[p] && Dot(M'[r], v, |x|) == x'[r];
          forall q | 0 <= q < |x| ensures Dot(M[q], v, |x|) == x[q] {
            if q != r { assert Dot(M'[q], v, |x|) == x'[q]; }
          }
        }
      }
    }
  }

  lemma SameSolutionsTransitive(A: Mat, b: Vec, M: Mat, x: Vec, M': Mat, x': Vec)
    requires |b| == |x| == |x'| && IsMatrix(A, |b|, |b|) && IsMatrix(M, |b|, |b|) && IsMatrix(M', |b|, |b|)
    requires SameSolutions(A, b, M, x) && SameSolutions(M, x, M', x')
    ensures SameSolutions(A, b, M', x')
  {
    forall v: Vec ensures Solves(A, b, v) <==> Solves(M', x', v) {
      assert Solves(A, b, v) <==> Solves(M, x, v);
    }
  }

  lemma QuotientCancels(a: real, p: real)
    requires p != 0.0
    ensures a - a / p * p == 0.0
  {}

  // ---- elimination

  /** Scan for the largest magnitude at or below the diagonal of column `col`. */
  method FindPivot(M: array<seq<real>>, n: nat, col: nat) returns (pivot: nat, maxAbs: real)
    requires M.Length == n && IsMatrix(M[..], n, n) && col < n
    ensures col <= pivot < n && maxAbs == Abs(M[pivot][col])
    ensures forall r :: col <= r < n ==> Abs(M[r][col]) <= maxAbs
    ensures pivot == PivotRow(M[..], col, n)
  {
    pivot, maxAbs := col, Abs(M[col][col]);
    for r := col + 1 to n
      invariant col <= pivot < n && maxAbs == Abs(M[pivot][col])
      invariant forall q :: col <= q < r ==> Abs(M[q][col]) <= maxAbs
      invariant pivot == PivotRow(M[..], col, r)
    {
      var v := Abs(M[r][col]);
      if v > maxAbs {
        maxAbs, pivot := v, r;
      }
    }
  }

  /** Left of the pivot the subtracted row is zero, so stopping at `col` loses nothing. */
  lemma RowIsSubScaled(w: Vec, u: Vec, f: real, p: Vec, col: nat)
    requires |w| == |u| == |p| && col <= |u|
    requires forall k :: 0 <= k < col ==> p[k] == 0.0
    requires forall k :: 0 <= k < |u| ==> w[k] == if col <= k < |u| then u[k] - f * p[k] else u[k]
    ensures w == SubScaled(u, f, p)
  {
    forall k | 0 <= k < |u| ensures w[k] == u[k] - f * p[k] {
      if k < col { assert f * p[k] == 0.0; }
    }
  }

  /** One row of the elimination: M[r] -= factor * M[col], touching columns col..n-1 only. */
  method EliminateRow(M: array<seq<real>>, x: array<real>, n: nat, col: nat, r: nat)
    requires M.Length == x.Length == n && IsMatrix(M[..], n, n) && col < r < n
    requires M[col][col] != 0.0
    requires forall c :: 0 <= c < col ==> M[col][c] == 0.0
    modifies M, x
    ensures IsMatrix(M[..], n, n)
    ensures M[..] == old(M[..])[r := SubScaled(old(M[r]), old(M[r][col]) / old(M[col][col]), old(M[col]))]
    ensures x[..] == old(x[..])[r := x[r]]
    ensures M[r][col] == 0.0 && forall c :: 0 <= c < col ==> M[r][c] == old(M[r][c])
    ensures SameSolutions(old(M[..]), old(x[..]), M[..], x[..])
  {
    ghost var M0, x0 := M[..], x[..];
    var factor := M[r][col] / M[col][col];
    QuotientCancels(M[r][col], M[col][col]);
    if factor == 0.0 {
      assert M0[r] == SubScaled(M0[r], factor, M0[col]);
      assert M[..] == M0[r := M[r]] && x[..] == x0[r := x[r]];
      return;
    }
    for c := col to n
      invariant IsMatrix(M[..], n, n) && M[..] == M0[r := M[r]] && x[..] == x0
      invariant forall k :: 0 <= k < n ==>
        M[r][k] == if col <= k < c then M0[r][k] - factor * M0[col][k] else M0[r][k]
    {
      M[r] := M[r][c := M[r][c] - factor * M[col][c]];
    }
    assert |M[..][r]| == n;
    RowIsSubScaled(M[r], M0[r], factor, M0[col], col);
    assert x[r] == x0[r] && x[col] == x0[col];
    var xr := x[r] - factor * x[col];
    x[r] := xr;
    assert x[..] == x0[r := xr];
    EliminateKeepsSolutions(M0, x0, col, r, factor);
    assert M[..] == M0[r := SubScaled(M0[r], factor, M0[col])];
    assert xr == x0[r] - factor * x0[col];
  }

  lemma ClearedKeepsEliminated(P: Mat, col: nat)
    requires IsMatrix(P, |P|, |P|) && col < |P| && Eliminated(P, |P|, col)
    requires Abs(P[col][col]) >= PIVOT_TOLERANCE
    ensures Eliminated(Cleared(P, col), |P|, col + 1)
  {
    var N := Cleared(P, col);
    hide Cleared, SubScaled;
    forall c, r | 0 <= c < col + 1 && c < r < |P| ensures N[r][c] == 0.0 {
      if r > col {
        var f := P[r][col] / P[col][col];
        assert N[r][c] == P[r][c] - f * P[col][c];
        if c == col { QuotientCancels(P[r][col], P[col][col]); }
      }
    }
    forall c | 0 <= c < col + 1 ensures Abs(N[c][c]) >= PIVOT_TOLERANCE {
      assert N[c] == P[c];
    }
  }

  /** Clear column `col` below its pivot. */
  method EliminateBelow(M: array<seq<real>>, x: array<real>, n: nat, col: nat)
    requires M.Length == x.Length == n && IsMatrix(M[..], n, n) && col < n
    requires Eliminated(M[..], n, col) && Abs(M[col][col]) >= PIVOT_TOLERANCE
    modifies M, x
    ensures IsMatrix(M[..], n, n) && Eliminated(M[..], n, col + 1)
    ensures SameSolutions(old(M[..]), old(x[..]), M[..], x[..])
    ensures M[..] == Cleared(old(M[..]), col)
  {
    ghost var M0, x0 := M[..], x[..];
    ClearedKeepsEliminated(M0, col);
    assert forall c :: 0 <= c < col ==> M0[col][c] == 0.0;
    hide Eliminated, SubScaled;
    for r := col + 1 to n
      invariant IsMatrix(M[..], n, n) && SameSolutions(M0, x0, M[..], x[..])
      invariant forall q :: 0 <= q < n ==>
        M[q] == if col < q < r then SubScaled(M0[q], M0[q][col] / M0[col][col], M0[col]) else M0[q]
    {
      ghost var M1, x1 := M[..], x[..];
      EliminateRow(M, x, n, col, r);
      SameSolutionsTransitive(M0, x0, M1, x1, M[..], x[..]);
    }
    assert M[..] == Cleared(M0, col);
  }

  /** One pass of the outer loop: pivot, swap, eliminate; refuses when no pivot is usable. */
  method EliminateColumn(M: array<seq<real>>, x: array<real>, n: nat, col: nat) returns (ok: bool)
    requires M.Length == x.Length == n && IsMatrix(M[..], n, n) && col < n
    requires Eliminated(M[..], n, col)
    modifies M, x
    ensures IsMatrix(M[..], n, n) && SameSolutions(old(M[..]), old(x[..]), M[..], x[..])
    ensures ok ==> Eliminated(M[..], n, col + 1)
    ensures ok <==> Abs(Pivoted(old(M[..]), col)[col][col]) >= PIVOT_TOLERANCE
    ensures ok ==> M[..] == Cleared(Pivoted(old(M[..]), col), col)
  {
    ghost var M0, x0 := M[..], x[..];
    var pivot, maxAbs := FindPivot(M, n, col);
    if maxAbs < PIVOT_TOLERANCE {
      return false;
    }
    if pivot != col {
      M[col], M[pivot] := M[pivot], M[col];
      x[col], x[pivot] := x[pivot], x[col];
    }
    SwapKeepsSolutions(M0, x0, col, pivot);
    assert M[..] == M0[col := M0[pivot]][pivot := M0[col]];
    assert x[..] == x0[col := x0[pivot]][pivot := x0[col]];
    ghost var M1, x1 := M[..], x[..];
    assert Eliminated(M1, n, col);
    EliminateBelow(M, x, n, col);
    SameSolutionsTransitive(M0, x0, M1, x1, M[..], x[..]);
    ok := true;
  }

  // ---- back-substitution

  /** On a row that is zero left of its diagonal, the dot product is the diagonal term plus the tail. */
  function Tail(u: Vec, v: Vec, row: nat, n: nat): real
    requires row < n <= |u| && n <= |v|
  {
    if n == row + 1 then 0.0 else Tail(u, v, row, n - 1) + u[n - 1] * v[n - 1]
  }

  lemma {:induction false} DotSplit(u: Vec, v: Vec, row: nat, n: nat)
    requires row < n <= |u| && n <= |v|
    requires forall c :: 0 <= c < row ==> u[c] == 0.0
    ensures Dot(u, v, n) == u[row] * v[row] + Tail(u, v, row, n)
  {
    if n == row + 1 {
      DotZeroPrefix(u, v, row);
    } else {
      DotSplit(u, v, row, n - 1);
    }
  }

  lemma {:induction false} TailAgree(u: Vec, v: Vec, w: Vec, row: nat, n: nat)
    requires row < n <= |u| && n <= |v| && n <= |w|
    requires forall c :: row < c < n ==> v[c] == w[c]
    ensures Tail(u, v, row, n) == Tail(u, w, row, n)
  {
    if n > row + 1 { TailAgree(u, v, w, row, n - 1); }
  }

  lemma CancelFactor(a: real, s: real, t: real)
    requires a != 0.0 && a * s == a * t
    ensures s == t
  {
    assert a * (s - t) == 0.0;
  }

  lemma DivideThrough(sum: real, a: real)
    requires a != 0.0
    ensures a * (sum / a) == sum
  {}

  /** An upper-triangular system with a nonzero diagonal has at most one solution. */
  lemma {:induction false} TriangularUnique(M: Mat, x: Vec, v: Vec, w: Vec, k: nat)
    requires IsMatrix(M, |x|, |x|) && Eliminated(M, |x|, |x|) && k <= |x|
    requires Solves(M, x, v) && Solves(M, x, w)
    ensures forall c :: k <= c < |x| ==> v[c] == w[c]
    decreases |x| - k
  {
    if k < |x| {
      TriangularUnique(M, x, v, w, k + 1);
      DotSplit(M[k], v, k, |x|);
      DotSplit(M[k], w, k, |x|);
      TailAgree(M[k], v, w, k, |x|);
      CancelFactor(M[k][k], v[k], w[k]);
    }
  }

  /** Changing position `row` of the solution leaves the equations below it alone. */
  lemma LowerRowUntouched(u: Vec, sol: Vec, row: nat, value: real, r: nat)
    requires |u| == |sol| && row < r < |u|
    requires forall c :: 0 <= c < r ==> u[c] == 0.0
    ensures Dot(u, sol[row := value], |u|) == Dot(u, sol, |u|)
  {
    DotSplit(u, sol[row := value], r, |u|);
    DotSplit(u, sol, r, |u|);
    TailAgree(u, sol[row := value], sol, r, |u|);
  }

  /** Filling in position `row` solves its own equation. */
  lemma OwnRowSolved(u: Vec, sol: Vec, row: nat, value: real, rhs: real)
    requires |u| == |sol| && row < |u|
    requires forall c :: 0 <= c < row ==> u[c] == 0.0
    requires u[row] * value == rhs - Tail(u, sol, row, |u|)
    ensures Dot(u, sol[row := value], |u|) == rhs
  {
    DotSplit(u, sol[row := value], row, |u|);
    TailAgree(u, sol[row := value], sol, row, |u|);
  }

  method BackSubstitute(M: array<seq<real>>, x: array<real>, n: nat) returns (sol: array<real>)
    requires M.Length == x.Length == n && IsMatrix(M[..], n, n)
    requires Eliminated(M[..], n, n)
    ensures sol.Length == n && Solves(M[..], x[..], sol[..])
  {
    ghost var Ms, xs := M[..], x[..];
    sol := new real[n](_ => 0.0);
    for row := n downto 0
      invariant M[..] == Ms && x[..] == xs
      invariant forall r :: row <= r < n ==> Dot(Ms[r], sol[..], n) == xs[r]
    {
      ghost var before := sol[..];
      var sum := x[row];
      for c := row + 1 to n
        invariant sol[..] == before && M[..] == Ms
        invariant sum == xs[row] - Tail(Ms[row], before, row, c)
      {
        assert M[row] == Ms[row] && sol[c] == before[c];
        sum := sum - M[row][c] * sol[c];
      }
      sol[row] := sum / M[row][row];
      DivideThrough(sum, M[row][row]);
      assert M[row] == Ms[row] && sol[..] == before[row := sol[row]];
      OwnRowSolved(Ms[row], before, row, sol[row], xs[row]);
      forall r | row < r < n ensures Dot(Ms[r], sol[..], n) == xs[r] {
        LowerRowUntouched(Ms[r], before, row, sol[row], r);
      }
    }
  }

  // ---- singular systems are refused, and only nearly singular ones

  lemma DotCleared(P: Mat, col: nat, w: Vec, r: nat)
    requires IsMatrix(P, |P|, |P|) && col < |P| == |w| && P[col][col] != 0.0 && r < |P|
    requires Dot(P[col], w, |P|) == 0.0
    ensures Dot(Cleared(P, col)[r], w, |P|) == Dot(P[r], w, |P|)
  {
    if r > col { DotSubScaled(P[r], P[r][col] / P[col][col], P[col], w, |P|); }
  }

  lemma PivotedIsEliminated(M: Mat, col: nat)
    requires IsMatrix(M, |M|, |M|) && col < |M| && Eliminated(M, |M|, col)
    ensures Eliminated(Pivoted(M, col), |M|, col)
  {
    hide PivotRow, Abs;
  }

  lemma ClearedIsEliminated(M: Mat, col: nat)
    requires IsMatrix(M, |M|, |M|) && col < |M| && Eliminated(M, |M|, col)
    requires Abs(Pivoted(M, col)[col][col]) >= PIVOT_TOLERANCE
    ensures Eliminated(Cleared(Pivoted(M, col), col), |M|, col + 1)
  {
    PivotedIsEliminated(M, col);
    hide Pivoted;
    ClearedKeepsEliminated(Pivoted(M, col), col);
  }

  lemma {:induction false} TailOfZeros(u: Vec, w: Vec, row: nat, n: nat)
    requires row < n <= |u| && n <= |w|
    requires forall c :: row < c < n ==> w[c] == 0.0
    ensures Tail(u, w, row, n) == 0.0
  {
    if n > row + 1 { TailOfZeros(u, w, row, n - 1); }
  }

  /** Rows c to k - 1 of a triangle can be solved to zero from a one in position k. */
  lemma {:induction false} KernelAbove(M: Mat, k: nat, c: nat) returns (w: Vec)
    requires IsMatrix(M, |M|, |M|) && c <= k < |M| && Eliminated(M, |M|, k)
    ensures |w| == |M| && w[k] == 1.0 && forall i :: k < i < |M| ==> w[i] == 0.0
    ensures forall r :: c <= r < k ==> Dot(M[r], w, |M|) == 0.0
    decreases k - c
  {
    if c == k {
      w := Zeros(|M|)[k := 1.0];
    } else {
      var below := KernelAbove(M, k, c + 1);
      var value := -Tail(M[c], below, c, |M|) / M[c][c];
      DivideThrough(-Tail(M[c], below, c, |M|), M[c][c]);
      w := below[c := value];
      OwnRowSolved(M[c], below, c, value, 0.0);
      forall r | c < r < k ensures Dot(M[r], w, |M|) == 0.0 {
        LowerRowUntouched(M[r], below, c, value, r);
      }
    }
  }

  lemma StuckVanishes(M: Mat, col: nat) returns (w: Vec)
    requires IsMatrix(M, |M|, |M|) && col < |M| && Eliminated(M, |M|, col)
    requires forall r :: col <= r < |M| ==> Abs(M[r][col]) < PIVOT_TOLERANCE
    ensures Vanishes(M, w, col, col)
  {
    w := KernelAbove(M, col, 0);
    forall r | col <= r < |M| ensures Dot(M[r], w, |M|) == M[r][col] {
      DotSplit(M[r], w, col, |M|);
      TailOfZeros(M[r], w, col, |M|);
    }
  }

  /** Undoing the swap and the clearing of a column leaves the values at w as they are, up to order. */
  lemma VanishesBefore(M: Mat, col: nat, w: Vec, k: nat)
    requires IsMatrix(M, |M|, |M|) && col < |M| && Pivoted(M, col)[col][col] != 0.0
    requires Vanishes(Cleared(Pivoted(M, col), col), w, k, col + 1)
    ensures Vanishes(M, w, k, col)
  {
    var P, p, n := Pivoted(M, col), PivotRow(M, col, |M|), |M|;
    assert Dot(Cleared(P, col)[col], w, n) == 0.0;
    forall r | 0 <= r < n
      ensures Abs(Dot(M[r], w, n)) < PIVOT_TOLERANCE && (r < col ==> Dot(M[r], w, n) == 0.0)
    {
      var r' := if r == col then p else if r == p then col else r;
      assert P[r'] == M[r];
      DotCleared(P, col, w, r');
      assert Abs(Dot(Cleared(P, col)[r'], w, n)) < PIVOT_TOLERANCE;
    }
  }

  lemma {:induction false} RefusedVanishes(M: Mat, col: nat) returns (w: Vec, k: nat)
    requires IsMatrix(M, |M|, |M|) && Eliminated(M, |M|, col) && Refused(M, col)
    ensures Vanishes(M, w, k, col)
    decreases |M| - col
  {
    var P := Pivoted(M, col);
    if Abs(P[col][col]) < PIVOT_TOLERANCE {
      forall r | col <= r < |M| ensures Abs(M[r][col]) < PIVOT_TOLERANCE {
        var p := PivotRow(M, col, |M|);
        assert P[col] == M[p];
      }
      k := col;
      w := StuckVanishes(M, col);
    } else {
      ClearedIsEliminated(M, col);
      w, k := RefusedVanishes(Cleared(P, col), col + 1);
      VanishesBefore(M, col, w, k);
    }
  }

  /** Clearing a column keeps the kernel. */
  lemma KernelCleared(M: Mat, col: nat, w: Vec)
    requires IsMatrix(M, |M|, |M|) && col < |M| && Pivoted(M, col)[col][col] != 0.0
    requires Solves(M, Zeros(|M|), w)
    ensures Solves(Cleared(Pivoted(M, col), col), Zeros(|M|), w)
  {
    var P, p, n := Pivoted(M, col), PivotRow(M, col, |M|), |M|;
    forall r | 0 <= r < n ensures Dot(P[r], w, n) == 0.0 {
      var r' := if r == col then p else if r == p then col else r;
      assert P[r] == M[r'];
    }
    forall r | 0 <= r < n ensures Dot(Cleared(P, col)[r], w, n) == 0.0 {
      DotCleared(P, col, w, r);
    }
  }

  lemma TriangularKernel(M: Mat, w: Vec)
    requires IsMatrix(M, |M|, |M|) && Eliminated(M, |M|, |M|) && Solves(M, Zeros(|M|), w)
    ensures w == Zeros(|M|)
  {
    var n := |M|;
    forall r | 0 <= r < n ensures Dot(M[r], Zeros(n), n) == 0.0 {
      DotSymmetric(M[r], Zeros(n), n);
      DotZeroPrefix(Zeros(n), M[r], n);
    }
    TriangularUnique(M, Zeros(n), w, Zeros(n), 0);
  }

  /** Without a refusal the kernel is trivial. */
  lemma {:induction false} AcceptedIsRegular(M: Mat, col: nat, w: Vec)
    requires IsMatrix(M, |M|, |M|) && col <= |M| && Eliminated(M, |M|, col) && !Refused(M, col)
    requires Solves(M, Zeros(|M|), w)
    ensures w == Zeros(|M|)
    decreases |M| - col
  {
    if col == |M| {
      TriangularKernel(M, w);
    } else {
      KernelCleared(M, col, w);
      ClearedIsEliminated(M, col);
      hide Solves, Eliminated, Pivoted, Cleared;
      AcceptedIsRegular(Cleared(Pivoted(M, col), col), col + 1, w);
    }
  }

  /** Every singular matrix is refused, and every refused matrix is nearly singular. */
  lemma RefusedBetweenSingularAndNearlySingular(A: Mat)
    requires IsMatrix(A, |A|, |A|)
    ensures SingularMatrix(A) ==> Refused(A, 0)
    ensures Refused(A, 0) ==> NearlySingular(A)
  {
    if Refused(A, 0) {
      var w, k := RefusedVanishes(A, 0);
    } else if SingularMatrix(A) {
      var w: Vec :| w != Zeros(|A|) && Solves(A, Zeros(|A|), w);
      AcceptedIsRegular(A, 0, w);
    }
  }

  /** Changing one coordinate of a row adds the change times the vector's coordinate. */
  lemma {:induction false} DotOneOff(u: Vec, v: Vec, w: Vec, k: nat, n: nat)
    requires n <= |u| && n <= |v| && n <= |w|
    requires forall c :: 0 <= c < n && c != k ==> v[c] == u[c]
    ensures Dot(v, w, n) == Dot(u, w, n) + if k < n then (v[k] - u[k]) * w[k] else 0.0
  {
    if n > 0 {
      DotOneOff(u, v, w, k, n - 1);
      assert n - 1 == k ==> v[k] * w[k] == u[k] * w[k] + (v[k] - u[k]) * w[k];
    }
  }

  lemma {:induction false} DotScaled(u: Vec, w: Vec, s: Vec, f: real, n: nat)
    requires n <= |u| && n <= |w| && n <= |s|
    requires forall c :: 0 <= c < n ==> s[c] == f * w[c]
    ensures Dot(u, s, n) == f * Dot(u, w, n)
  {
    if n > 0 {
      DotScaled(u, w, s, f, n - 1);
      var a, b, d := u[n - 1], w[n - 1], Dot(u, w, n - 1);
      assert a * (f * b) == f * (a * b) && f * (d + a * b) == f * d + f * (a * b);
    }
  }

  /** Nearly singular means: less than the tolerance away, in one column, from a singular matrix. */
  lemma NearlySingularExactly(A: Mat)
    requires IsMatrix(A, |A|, |A|)
    ensures NearlySingular(A) <==> exists B: Mat, k: nat :: OneColumnOff(A, B, k) && SingularMatrix(B)
  {
    if NearlySingular(A) {
      var w: Vec, k: nat :| Vanishes(A, w, k, 0);
      var B := SingularNeighbour(A, w, k);
    }
    if exists B: Mat, k: nat :: OneColumnOff(A, B, k) && SingularMatrix(B) {
      var B: Mat, k: nat :| OneColumnOff(A, B, k) && SingularMatrix(B);
      NeighbourVanishes(A, B, k);
    }
  }

  lemma SingularNeighbour(A: Mat, w: Vec, k: nat) returns (B: Mat)
    requires IsMatrix(A, |A|, |A|) && Vanishes(A, w, k, 0)
    ensures OneColumnOff(A, B, k) && SingularMatrix(B)
  {
    var n := |A|;
    B := seq(n, r requires 0 <= r < n => A[r][k := A[r][k] - Dot(A[r], w, n)]);
    forall r | 0 <= r < n ensures Dot(B[r], w, n) == 0.0 {
      DotOneOff(A[r], B[r], w, k, n);
    }
    assert Solves(B, Zeros(n), w) && w[k] != Zeros(n)[k];
  }

  lemma NeighbourVanishes(A: Mat, B: Mat, k: nat)
    requires IsMatrix(A, |A|, |A|) && OneColumnOff(A, B, k) && SingularMatrix(B)
    ensures NearlySingular(A)
  {
    var n := |A|;
    var w: Vec :| w != Zeros(n) && Solves(B, Zeros(n), w);
    var j := if w[k] != 0.0 then k else NonzeroAt(w);
    var f := 1.0 / w[j];
    var s := seq(n, c requires 0 <= c < n => f * w[c]);
    QuotientTimes(1.0, w[j]);
    assert s[j] == 1.0;
    forall r | 0 <= r < n ensures Abs(Dot(A[r], s, n)) < PIVOT_TOLERANCE {
      DotScaled(B[r], w, s, f, n);
      assert Dot(B[r], w, n) == 0.0;
      DotOneOff(B[r], A[r], s, k, n);
      if w[k] == 0.0 { assert s[k] == 0.0; }
    }
    assert Vanishes(A, s, j, 0);
  }

  ghost function NonzeroAt(w: Vec): (j: nat)
    requires w != Zeros(|w|)
    ensures j < |w| && w[j] != 0.0
  {
    var j: nat :| j < |w| && w[j] != 0.0;
    j
  }

  lemma OneColumnOfRefused(M: Mat, col: nat)
    requires IsMatrix(M, |M|, |M|) && col < |M|
    ensures var P := Pivoted(M, col);
      Refused(M, col) <==> Abs(P[col][col]) < PIVOT_TOLERANCE || Refused(Cleared(P, col), col + 1)
  {}

  lemma NothingLeftToRefuse(M: Mat)
    requires IsMatrix(M, |M|, |M|)
    ensures !Refused(M, |M|)
  {}

  lemma NothingDoneYet(A: Mat, b: Vec)
    requires IsMatrix(A, |b|, |b|)
    ensures SameSolutions(A, b, A, b) && Eliminated(A, |b|, 0)
  {}

  lemma TriangularSoleSolution(A: Mat, b: Vec, M: Mat, x: Vec, sol: Vec)
    requires |b| == |x| && IsMatrix(A, |b|, |b|) && IsMatrix(M, |b|, |b|) && SameSolutions(A, b, M, x)
    requires Eliminated(M, |b|, |b|) && Solves(M, x, sol)
    ensures forall v: Vec :: Solves(A, b, v) <==> v == sol
  {
    forall v: Vec ensures Solves(A, b, v) <==> v == sol {
      if Solves(A, b, v) {
        TriangularUnique(M, x, v, sol, 0);
        assert v == sol;
      }
    }
  }

  /** `solveLinearSystem`: a returned vector is the one and only solution of A x = b. It refuses
      exactly where the elimination meets a column without a usable pivot, so on every singular
      matrix, and on no matrix that is not nearly singular. A and b are values, so the caller's
      inputs stay as they were. */
  method SolveLinearSystem(A: Mat, b: Vec) returns (result: Solution)
    requires IsMatrix(A, |b|, |b|)
    ensures result.Solved? ==> forall v: Vec :: Solves(A, b, v) <==> v == result.v
    ensures result.Singular? <==> Refused(A, 0)
    ensures SingularMatrix(A) ==> result.Singular?
    ensures result.Singular? ==> NearlySingular(A)
  {
    RefusedBetweenSingularAndNearlySingular(A);
    NothingDoneYet(A, b);
    hide Refused, Pivoted, Cleared, SingularMatrix, NearlySingular, Abs, Solves, SameSolutions, Eliminated;
    var n := |b|;
    var M := new seq<real>[n](i requires 0 <= i < n => A[i]);
    var x := new real[n](i requires 0 <= i < n => b[i]);
    assert M[..] == A && x[..] == b;
    for col := 0 to n
      invariant IsMatrix(M[..], n, n) && SameSolutions(A, b, M[..], x[..])
      invariant Eliminated(M[..], n, col)
      invariant Refused(A, 0) <==> Refused(M[..], col)
    {
      ghost var M1, x1 := M[..], x[..];
      OneColumnOfRefused(M1, col);
      var ok := EliminateColumn(M, x, n, col);
      if !ok { return Singular; }
      SameSolutionsTransitive(A, b, M1, x1, M[..], x[..]);
    }
    NothingLeftToRefuse(M[..]);
    var sol := BackSubstitute(M, x, n);
    TriangularSoleSolution(A, b, M[..], x[..], sol[..]);
    result := Solved(sol[..]);
  }
}

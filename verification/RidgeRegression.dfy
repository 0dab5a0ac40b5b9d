/** Ridge-regularised least squares on the normal equations, from linear-solver.ts. */
module RidgeRegression {
  import opened LinearAlgebra
  import opened LinearSolver

  /** The number of columns the code reads off the first row. */
  function Width(X: Mat): nat { if |X| == 0 then 0 else |X[0]| }

  ghost predicate Design(X: Mat, y: Vec) {
    IsMatrix(X, |X|, Width(X)) && |y| == |X|
  }

  /** The weight on coefficient a: column 0 is exempt unless `penalizeIntercept`. */
  function PenaltyAt(a: nat, ridge: real, penalizeIntercept: bool): real {
    if a == 0 && !penalizeIntercept then 0.0 else ridge
  }

  // ---- the quantity being minimised, with no reference to the normal equations

  /** y - X beta */
  function Residuals(X: Mat, y: Vec, beta: Vec): (r: Vec)
    requires Design(X, y) && |beta| == Width(X)
    ensures |r| == |X| && forall i :: 0 <= i < |X| ==> r[i] == y[i] - Dot(X[i], beta, |beta|)
  {
    seq(|X|, i requires 0 <= i < |X| => y[i] - Dot(X[i], beta, |beta|))
  }

  function Weighted(beta: Vec, ridge: real, pen: bool): (w: Vec)
    ensures |w| == |beta| && forall a :: 0 <= a < |beta| ==> w[a] == PenaltyAt(a, ridge, pen) * beta[a]
  {
    seq(|beta|, a requires 0 <= a < |beta| => PenaltyAt(a, ridge, pen) * beta[a])
  }

  /** The sum of w[a] * beta[a] * beta[a]. */
  function Penalty(beta: Vec, ridge: real, pen: bool): real {
    Dot(Weighted(beta, ridge, pen), beta, |beta|)
  }

  function Objective(X: Mat, y: Vec, ridge: real, pen: bool, beta: Vec): real
    requires Design(X, y) && |beta| == Width(X)
  {
    var r := Residuals(X, y, beta);
    Dot(r, r, |X|) + Penalty(beta, ridge, pen)
  }

  /** beta beats every other coefficient vector. */
  ghost predicate UniqueMinimiser(X: Mat, y: Vec, ridge: real, pen: bool, beta: Vec)
    requires Design(X, y) && |beta| == Width(X)
  {
    forall g: Vec :: |g| == |beta| && g != beta ==>
      Objective(X, y, ridge, pen, beta) < Objective(X, y, ridge, pen, g)
  }

  lemma PenaltyStep(ridge: real, x: real, before: real)
    ensures ridge * before + ridge * x * x == ridge * (before + x * x)
  {}

  lemma {:induction false} PenaltyOfAll(beta: Vec, ridge: real, n: nat)
    requires n <= |beta|
    ensures Dot(Weighted(beta, ridge, true), beta, n) == ridge * Dot(beta, beta, n)
  {
    if n > 0 {
      PenaltyOfAll(beta, ridge, n - 1);
      PenaltyStep(ridge, beta[n - 1], Dot(beta, beta, n - 1));
    }
  }

  lemma {:induction false} PenaltyOfRest(beta: Vec, ridge: real, n: nat)
    requires 1 <= n <= |beta|
    ensures Dot(Weighted(beta, ridge, false), beta, n) == ridge * Dot(beta[1..], beta[1..], n - 1)
  {
    if n > 1 {
      PenaltyOfRest(beta, ridge, n - 1);
      PenaltyStep(ridge, beta[n - 1], Dot(beta[1..], beta[1..], n - 2));
    } else {
      var w := Weighted(beta, ridge, false);
      assert Dot(w, beta, 1) == Dot(w, beta, 0) + w[0] * beta[0];
    }
  }

  /** The coefficients that the ridge weighs on: all but the intercept, unless it is penalised. */
  function Counted(beta: Vec, pen: bool): Vec { if pen || beta == [] then beta else beta[1..] }

  lemma PenaltyOfCounted(beta: Vec, ridge: real, pen: bool)
    ensures Penalty(beta, ridge, pen) == ridge * Dot(Counted(beta, pen), Counted(beta, pen), |Counted(beta, pen)|)
  {
    hide Dot, Weighted;
    if beta == [] {
      NoPenalty(ridge, pen);
    } else if pen {
      PenaltyOfAll(beta, ridge, |beta|);
    } else {
      PenaltyOfRest(beta, ridge, |beta|);
    }
  }

  lemma NoPenalty(ridge: real, pen: bool)
    ensures Penalty([], ridge, pen) == 0.0 == ridge * Dot([], [], 0)
  {}

  /** The objective is the squared error and the ridge times the squared coefficients, the intercept's
      left out unless it is to be penalised. */
  lemma ObjectiveIsPenalisedError(X: Mat, y: Vec, ridge: real, pen: bool, beta: Vec)
    requires Design(X, y) && |beta| == Width(X)
    ensures var r, counted := Residuals(X, y, beta), Counted(beta, pen);
      Objective(X, y, ridge, pen, beta) == Dot(r, r, |X|) + ridge * Dot(counted, counted, |counted|)
  {
    hide Penalty, Residuals, Dot;
    PenaltyOfCounted(beta, ridge, pen);
  }

  // ---- the normal equations

  /** The sum of X[i][a] * X[i][b] over the first k rows. */
  function GramEntry(X: Mat, a: nat, b: nat, k: nat): real
    requires IsMatrix(X, |X|, Width(X)) && a < Width(X) && b < Width(X) && k <= |X|
  {
    if k == 0 then 0.0 else GramEntry(X, a, b, k - 1) + X[k - 1][a] * X[k - 1][b]
  }

  /** The sum of X[i][a] * z[i] over the first k rows. */
  function Moment(X: Mat, z: Vec, a: nat, k: nat): real
    requires Design(X, z) && a < Width(X) && k <= |X|
  {
    if k == 0 then 0.0 else Moment(X, z, a, k - 1) + X[k - 1][a] * z[k - 1]
  }

  function NormalRow(X: Mat, ridge: real, pen: bool, a: nat): (row: Vec)
    requires IsMatrix(X, |X|, Width(X)) && a < Width(X)
    ensures |row| == Width(X)
    ensures forall b :: 0 <= b < Width(X) ==>
      row[b] == GramEntry(X, a, b, |X|) + if a == b then PenaltyAt(a, ridge, pen) else 0.0
  {
    seq(Width(X), b requires 0 <= b < Width(X) =>
      GramEntry(X, a, b, |X|) + if a == b then PenaltyAt(a, ridge, pen) else 0.0)
  }

  function NormalMatrix(X: Mat, ridge: real, pen: bool): (N: Mat)
    requires IsMatrix(X, |X|, Width(X))
    ensures IsMatrix(N, Width(X), Width(X))
    ensures forall a :: 0 <= a < Width(X) ==> N[a] == NormalRow(X, ridge, pen, a)
  {
    seq(Width(X), a requires 0 <= a < Width(X) => NormalRow(X, ridge, pen, a))
  }

  function NormalRhs(X: Mat, y: Vec): (r: Vec)
    requires Design(X, y)
    ensures |r| == Width(X)
  {
    seq(Width(X), a requires 0 <= a < Width(X) => Moment(X, y, a, |X|))
  }

  lemma {:induction false} GramSymmetric(X: Mat, a: nat, b: nat, k: nat)
    requires IsMatrix(X, |X|, Width(X)) && a < Width(X) && b < Width(X) && k <= |X|
    ensures GramEntry(X, a, b, k) == GramEntry(X, b, a, k)
  {
    if k > 0 { GramSymmetric(X, a, b, k - 1); }
  }

  // ---- from the normal equations to the minimum

  /** The fitted values X beta. */
  function Predict(X: Mat, beta: Vec): (z: Vec)
    requires IsMatrix(X, |X|, Width(X)) && |beta| == Width(X)
    ensures |z| == |X| && forall i :: 0 <= i < |X| ==> z[i] == Dot(X[i], beta, |beta|)
  {
    seq(|X|, i requires 0 <= i < |X| => Dot(X[i], beta, |beta|))
  }

  function GramRow(X: Mat, a: nat, k: nat): (g: Vec)
    requires IsMatrix(X, |X|, Width(X)) && a < Width(X) && k <= |X|
    ensures |g| == Width(X) && forall b :: 0 <= b < Width(X) ==> g[b] == GramEntry(X, a, b, k)
  {
    seq(Width(X), b requires 0 <= b < Width(X) => GramEntry(X, a, b, k))
  }

  function MomentVec(X: Mat, z: Vec, k: nat): (m: Vec)
    requires Design(X, z) && k <= |X|
    ensures |m| == Width(X) && forall a :: 0 <= a < Width(X) ==> m[a] == Moment(X, z, a, k)
  {
    seq(Width(X), a requires 0 <= a < Width(X) => Moment(X, z, a, k))
  }

  lemma GramRowStep(X: Mat, a: nat, k: nat)
    requires IsMatrix(X, |X|, Width(X)) && a < Width(X) && 0 < k <= |X|
    ensures GramRow(X, a, k) == SubScaled(GramRow(X, a, k - 1), -X[k - 1][a], X[k - 1])
  {
    var row, before := X[k - 1], GramRow(X, a, k - 1);
    forall b | 0 <= b < Width(X) ensures GramRow(X, a, k)[b] == SubScaled(before, -row[a], row)[b] {
      assert GramEntry(X, a, b, k) == GramEntry(X, a, b, k - 1) + row[a] * row[b];
    }
  }

  lemma GramRowStepApplied(X: Mat, beta: Vec, a: nat, k: nat)
    requires IsMatrix(X, |X|, Width(X)) && |beta| == Width(X) && a < Width(X) && 0 < k <= |X|
    ensures Dot(GramRow(X, a, k), beta, |beta|)
         == Dot(GramRow(X, a, k - 1), beta, |beta|) + X[k - 1][a] * Dot(X[k - 1], beta, |beta|)
  {
    GramRowStep(X, a, k);
    DotSubScaled(GramRow(X, a, k - 1), -X[k - 1][a], X[k - 1], beta, |beta|);
  }

  /** Row a of the Gram matrix applied to beta is the moment of the fitted values. */
  lemma {:induction false} GramAppliesAsMoment(X: Mat, beta: Vec, a: nat, k: nat)
    requires IsMatrix(X, |X|, Width(X)) && |beta| == Width(X) && a < Width(X) && k <= |X|
    ensures Dot(GramRow(X, a, k), beta, |beta|) == Moment(X, Predict(X, beta), a, k)
  {
    if k == 0 {
      DotZeroPrefix(GramRow(X, a, 0), beta, |beta|);
    } else {
      GramAppliesAsMoment(X, beta, a, k - 1);
      GramRowStepApplied(X, beta, a, k);
    }
  }

  /** Exchanging the order of summation: z . (X d) == (X' z) . d */
  lemma {:induction false} TransposeMoves(X: Mat, z: Vec, d: Vec, k: nat)
    requires Design(X, z) && |d| == Width(X) && k <= |X|
    ensures Dot(z, Predict(X, d), k) == Dot(MomentVec(X, z, k), d, |d|)
  {
    if k == 0 {
      DotZeroPrefix(MomentVec(X, z, 0), d, |d|);
    } else {
      TransposeMoves(X, z, d, k - 1);
      MomentStep(X, z, k);
      DotSubScaled(MomentVec(X, z, k - 1), -z[k - 1], X[k - 1], d, |d|);
    }
  }

  lemma MomentStep(X: Mat, z: Vec, k: nat)
    requires Design(X, z) && 0 < k <= |X|
    ensures MomentVec(X, z, k) == SubScaled(MomentVec(X, z, k - 1), -z[k - 1], X[k - 1])
  {
    var before := MomentVec(X, z, k - 1);
    forall a | 0 <= a < Width(X) ensures MomentVec(X, z, k)[a] == SubScaled(before, -z[k - 1], X[k - 1])[a] {
      assert Moment(X, z, a, k) == Moment(X, z, a, k - 1) + X[k - 1][a] * z[k - 1];
    }
  }

  /** d is the direction from beta to g. */
  ghost predicate Direction(beta: Vec, g: Vec, d: Vec) {
    |beta| == |g| == |d| && forall i :: 0 <= i < |d| ==> d[i] == g[i] - beta[i]
  }

  lemma {:induction false} DotAlongDirection(row: Vec, beta: Vec, g: Vec, d: Vec, n: nat)
    requires Direction(beta, g, d) && n <= |row| && n <= |d|
    ensures Dot(row, g, n) == Dot(row, beta, n) + Dot(row, d, n)
  {
    if n > 0 {
      DotAlongDirection(row, beta, g, d, n - 1);
      assert row[n - 1] * g[n - 1] == row[n - 1] * beta[n - 1] + row[n - 1] * d[n - 1];
    }
  }

  /** (r - s) . (r - s) */
  lemma {:induction false} NormExpands(r: Vec, s: Vec, t: Vec, k: nat)
    requires Direction(s, r, t) && k <= |r|
    ensures Dot(t, t, k) == Dot(r, r, k) - 2.0 * Dot(r, s, k) + Dot(s, s, k)
  {
    if k > 0 {
      NormExpands(r, s, t, k - 1);
      SquareExpands(r[k - 1], s[k - 1], t[k - 1]);
    }
  }

  lemma SquareExpands(r: real, s: real, t: real)
    requires t == r - s
    ensures t * t == r * r - 2.0 * (r * s) + s * s
  {}

  /** Moving the coefficients from beta to g takes X d off the residuals. */
  lemma ResidualsMove(X: Mat, y: Vec, beta: Vec, g: Vec, d: Vec)
    requires Design(X, y) && |beta| == Width(X) && Direction(beta, g, d)
    ensures Direction(Predict(X, d), Residuals(X, y, beta), Residuals(X, y, g))
    ensures Direction(Predict(X, beta), y, Residuals(X, y, beta))
  {
    forall i | 0 <= i < |X| ensures Residuals(X, y, g)[i] == Residuals(X, y, beta)[i] - Predict(X, d)[i] {
      DotAlongDirection(X[i], beta, g, d, |d|);
    }
  }

  lemma {:induction false} WeightedSymmetric(u: Vec, v: Vec, ridge: real, pen: bool, k: nat)
    requires |u| == |v| && k <= |u|
    ensures Dot(Weighted(u, ridge, pen), v, k) == Dot(Weighted(v, ridge, pen), u, k)
  {
    if k > 0 {
      WeightedSymmetric(u, v, ridge, pen, k - 1);
      var w, a, b := PenaltyAt(k - 1, ridge, pen), u[k - 1], v[k - 1];
      assert w * a * b == w * b * a;
    }
  }

  lemma WeightedSplits(beta: Vec, g: Vec, d: Vec, ridge: real, pen: bool)
    requires Direction(beta, g, d)
    ensures Direction(Weighted(beta, ridge, pen), Weighted(g, ridge, pen), Weighted(d, ridge, pen))
  {
    forall i | 0 <= i < |d|
      ensures Weighted(d, ridge, pen)[i] == Weighted(g, ridge, pen)[i] - Weighted(beta, ridge, pen)[i]
    {
      var w, x, y := PenaltyAt(i, ridge, pen), g[i], beta[i];
      assert w * (x - y) == w * x - w * y;
    }
  }

  lemma PenaltyExpands(beta: Vec, g: Vec, d: Vec, ridge: real, pen: bool)
    requires Direction(beta, g, d)
    ensures Penalty(g, ridge, pen)
         == Penalty(beta, ridge, pen) + 2.0 * Dot(Weighted(beta, ridge, pen), d, |d|) + Penalty(d, ridge, pen)
  {
    var wb, wg, wd, n := Weighted(beta, ridge, pen), Weighted(g, ridge, pen), Weighted(d, ridge, pen), |d|;
    WeightedSplits(beta, g, d, ridge, pen);
    DotPlus(wb, wd, wg, g, n);
    DotAlongDirection(wb, beta, g, d, n);
    DotAlongDirection(wd, beta, g, d, n);
    WeightedSymmetric(beta, d, ridge, pen, n);
  }

  lemma {:induction false} DotIndicator(a: nat, value: real, beta: Vec, n: nat)
    requires n <= |beta|
    ensures Dot(Indicator(a, value, n), beta, n) == if a < n then value * beta[a] else 0.0
  {
    if n > 0 {
      DotIndicator(a, value, beta, n - 1);
      DotAgree(Indicator(a, value, n), Indicator(a, value, n - 1), beta, beta, n - 1);
    }
  }

  function Indicator(a: nat, value: real, n: nat): (e: Vec)
    ensures |e| == n && forall b :: 0 <= b < n ==> e[b] == if b == a then value else 0.0
  {
    seq(n, b => if b == a then value else 0.0)
  }

  lemma {:induction false} DotPlus(u: Vec, e: Vec, sum: Vec, v: Vec, n: nat)
    requires n <= |u| && n <= |e| && n <= |sum| && n <= |v|
    requires forall i :: 0 <= i < n ==> sum[i] == u[i] + e[i]
    ensures Dot(sum, v, n) == Dot(u, v, n) + Dot(e, v, n)
  {
    if n > 0 {
      DotPlus(u, e, sum, v, n - 1);
      assert sum[n - 1] * v[n - 1] == u[n - 1] * v[n - 1] + e[n - 1] * v[n - 1];
    }
  }

  lemma NormalRowSplits(X: Mat, ridge: real, pen: bool, beta: Vec, a: nat)
    requires IsMatrix(X, |X|, Width(X)) && |beta| == Width(X) && a < Width(X)
    ensures Dot(NormalRow(X, ridge, pen, a), beta, |beta|)
         == Dot(GramRow(X, a, |X|), beta, |beta|)
            + Dot(Indicator(a, PenaltyAt(a, ridge, pen), |beta|), beta, |beta|)
  {
    var penalty := Indicator(a, PenaltyAt(a, ridge, pen), |beta|);
    DotPlus(GramRow(X, a, |X|), penalty, NormalRow(X, ridge, pen, a), beta, |beta|);
  }

  lemma NormalRowAsMoment(X: Mat, ridge: real, pen: bool, beta: Vec, a: nat)
    requires IsMatrix(X, |X|, Width(X)) && |beta| == Width(X) && a < Width(X)
    ensures Dot(NormalRow(X, ridge, pen, a), beta, |beta|)
         == Moment(X, Predict(X, beta), a, |X|)
            + Dot(Indicator(a, PenaltyAt(a, ridge, pen), |beta|), beta, |beta|)
  {
    NormalRowSplits(X, ridge, pen, beta, a);
    GramAppliesAsMoment(X, beta, a, |X|);
  }

  lemma PenaltyTerm(ridge: real, pen: bool, beta: Vec, a: nat)
    requires a < |beta|
    ensures Dot(Indicator(a, PenaltyAt(a, ridge, pen), |beta|), beta, |beta|) == PenaltyAt(a, ridge, pen) * beta[a]
  {
    DotIndicator(a, PenaltyAt(a, ridge, pen), beta, |beta|);
  }

  /** A row of (X'X + Lambda) beta is the moment of the fitted values plus the penalty term. */
  lemma NormalRowApplied(X: Mat, ridge: real, pen: bool, beta: Vec, a: nat)
    requires IsMatrix(X, |X|, Width(X)) && |beta| == Width(X) && a < Width(X)
    ensures Dot(NormalRow(X, ridge, pen, a), beta, |beta|)
         == Moment(X, Predict(X, beta), a, |X|) + PenaltyAt(a, ridge, pen) * beta[a]
  {
    NormalRowAsMoment(X, ridge, pen, beta, a);
    PenaltyTerm(ridge, pen, beta, a);
  }

  /** The squared length of a direction: |X d|^2 plus its penalty. */
  function Length(X: Mat, ridge: real, pen: bool, d: Vec): real
    requires IsMatrix(X, |X|, Width(X)) && |d| == Width(X)
  {
    Dot(Predict(X, d), Predict(X, d), |X|) + Penalty(d, ridge, pen)
  }

  /** At a solution of the normal equations the residuals are orthogonal to every direction,
      up to the penalty's own term. */
  lemma ResidualsOrthogonal(X: Mat, y: Vec, ridge: real, pen: bool, beta: Vec, d: Vec)
    requires Design(X, y) && |beta| == |d| == Width(X)
    requires Solves(NormalMatrix(X, ridge, pen), NormalRhs(X, y), beta)
    ensures Dot(Residuals(X, y, beta), Predict(X, d), |X|) == Dot(Weighted(beta, ridge, pen), d, |d|)
  {
    var fitted, n := Predict(X, beta), |X|;
    NormalEquationsAsMoments(X, y, ridge, pen, beta);
    DotPlus(MomentVec(X, fitted, n), Weighted(beta, ridge, pen), MomentVec(X, y, n), d, |d|);
    TransposeMoves(X, y, d, n);
    TransposeMoves(X, fitted, d, n);
    DotPlus(fitted, Residuals(X, y, beta), y, Predict(X, d), n);
  }

  lemma NormalEquationsAsMoments(X: Mat, y: Vec, ridge: real, pen: bool, beta: Vec)
    requires Design(X, y) && |beta| == Width(X)
    requires Solves(NormalMatrix(X, ridge, pen), NormalRhs(X, y), beta)
    ensures forall a :: 0 <= a < |beta| ==>
      MomentVec(X, y, |X|)[a] == MomentVec(X, Predict(X, beta), |X|)[a] + Weighted(beta, ridge, pen)[a]
  {
    forall a | 0 <= a < |beta|
      ensures MomentVec(X, y, |X|)[a] == MomentVec(X, Predict(X, beta), |X|)[a] + Weighted(beta, ridge, pen)[a]
    {
      NormalRowApplied(X, ridge, pen, beta, a);
      assert Dot(NormalMatrix(X, ridge, pen)[a], beta, |beta|) == NormalRhs(X, y)[a];
    }
  }

  /** The whole gap to any competitor is the squared length of the direction towards it. */
  lemma ObjectiveGap(X: Mat, y: Vec, ridge: real, pen: bool, beta: Vec, g: Vec, d: Vec)
    requires Design(X, y) && |beta| == Width(X) && Direction(beta, g, d)
    requires Solves(NormalMatrix(X, ridge, pen), NormalRhs(X, y), beta)
    ensures Objective(X, y, ridge, pen, g) == Objective(X, y, ridge, pen, beta) + Length(X, ridge, pen, d)
  {
    ResidualsMove(X, y, beta, g, d);
    NormExpands(Residuals(X, y, beta), Predict(X, d), Residuals(X, y, g), |X|);
    PenaltyExpands(beta, g, d, ridge, pen);
    ResidualsOrthogonal(X, y, ridge, pen, beta, d);
  }

  /** A sum of products that are positive wherever u is nonzero vanishes only when u does. */
  lemma {:induction false} PositiveFormVanishes(u: Vec, s: Vec, k: nat)
    requires k <= |u| && k <= |s|
    requires forall i :: 0 <= i < k ==> u[i] * s[i] >= 0.0 && (u[i] != 0.0 ==> u[i] * s[i] > 0.0)
    ensures Dot(u, s, k) >= 0.0
    ensures Dot(u, s, k) == 0.0 ==> forall i :: 0 <= i < k ==> u[i] == 0.0
  {
    if k > 0 { PositiveFormVanishes(u, s, k - 1); }
  }

  lemma PenaltyNonNegative(d: Vec, ridge: real, pen: bool)
    requires ridge >= 0.0
    ensures Penalty(d, ridge, pen) >= 0.0
    ensures Penalty(d, ridge, pen) == 0.0 ==> forall a :: 0 <= a < |d| ==> Weighted(d, ridge, pen)[a] == 0.0
  {
    var u := Weighted(d, ridge, pen);
    forall i | 0 <= i < |d| ensures u[i] * d[i] >= 0.0 && (u[i] != 0.0 ==> u[i] * d[i] > 0.0) {
      WeightedSquareSign(PenaltyAt(i, ridge, pen), d[i]);
    }
    PositiveFormVanishes(u, d, |d|);
  }

  lemma NormNonNegative(s: Vec)
    ensures Dot(s, s, |s|) >= 0.0
    ensures Dot(s, s, |s|) == 0.0 ==> forall i :: 0 <= i < |s| ==> s[i] == 0.0
  {
    forall i | 0 <= i < |s| ensures s[i] * s[i] >= 0.0 && (s[i] != 0.0 ==> s[i] * s[i] > 0.0) {
      SquareSign(s[i]);
    }
    PositiveFormVanishes(s, s, |s|);
  }

  lemma WeightedSquareSign(w: real, s: real)
    requires w >= 0.0
    ensures w * s * s >= 0.0 && (w * s != 0.0 ==> w * s * s > 0.0)
  {
    SquareSign(s);
    assert w * s * s == w * (s * s);
    if w > 0.0 && s * s > 0.0 { assert w * (s * s) > 0.0; }
  }

  lemma SquareSign(x: real)
    ensures x * x >= 0.0 && (x != 0.0 ==> x * x > 0.0)
  {
    if x > 0.0 {
      assert x * x > 0.0;
    } else if x < 0.0 {
      assert (-x) * (-x) > 0.0;
    }
  }

  lemma {:induction false} MomentOfZeros(X: Mat, z: Vec, a: nat, k: nat)
    requires Design(X, z) && a < Width(X) && k <= |X|
    requires forall i :: 0 <= i < k ==> z[i] == 0.0
    ensures Moment(X, z, a, k) == 0.0
  {
    if k > 0 { MomentOfZeros(X, z, a, k - 1); }
  }

  /** A direction of zero length is in the kernel of the normal matrix. */
  lemma ZeroLengthInKernel(X: Mat, ridge: real, pen: bool, d: Vec, a: nat)
    requires IsMatrix(X, |X|, Width(X)) && |d| == Width(X) && ridge >= 0.0 && a < Width(X)
    requires Length(X, ridge, pen, d) == 0.0
    ensures Dot(NormalRow(X, ridge, pen, a), d, |d|) == 0.0
  {
    PenaltyNonNegative(d, ridge, pen);
    NormNonNegative(Predict(X, d));
    NormalRowApplied(X, ridge, pen, d, a);
    MomentOfZeros(X, Predict(X, d), a, |X|);
  }

  lemma LengthNonNegative(X: Mat, ridge: real, pen: bool, d: Vec)
    requires IsMatrix(X, |X|, Width(X)) && |d| == Width(X) && ridge >= 0.0
    ensures Length(X, ridge, pen, d) >= 0.0
  {
    PenaltyNonNegative(d, ridge, pen);
    NormNonNegative(Predict(X, d));
  }

  /** Following a direction of zero length stays on the solutions of the normal equations. */
  lemma ZeroLengthKeepsSolving(X: Mat, y: Vec, ridge: real, pen: bool, beta: Vec, g: Vec, d: Vec)
    requires Design(X, y) && |beta| == Width(X) && ridge >= 0.0 && Direction(beta, g, d)
    requires Solves(NormalMatrix(X, ridge, pen), NormalRhs(X, y), beta)
    requires Length(X, ridge, pen, d) == 0.0
    ensures Solves(NormalMatrix(X, ridge, pen), NormalRhs(X, y), g)
  {
    var N, r := NormalMatrix(X, ridge, pen), NormalRhs(X, y);
    forall a | 0 <= a < |beta| ensures Dot(N[a], g, |beta|) == r[a] {
      assert Dot(N[a], beta, |beta|) == r[a];
      ZeroLengthInKernel(X, ridge, pen, d, a);
      DotAlongDirection(N[a], beta, g, d, |d|);
    }
  }

  /** The sole solution of the normal equations is the sole minimiser of the objective. */
  lemma SoleSolutionIsUniqueMinimiser(X: Mat, y: Vec, ridge: real, pen: bool, beta: Vec)
    requires Design(X, y) && |beta| == Width(X) && ridge >= 0.0
    requires forall v: Vec :: Solves(NormalMatrix(X, ridge, pen), NormalRhs(X, y), v) <==> v == beta
    ensures UniqueMinimiser(X, y, ridge, pen, beta)
  {
    assert Solves(NormalMatrix(X, ridge, pen), NormalRhs(X, y), beta);
    forall g: Vec | |g| == |beta| && g != beta
      ensures Objective(X, y, ridge, pen, beta) < Objective(X, y, ridge, pen, g)
    {
      var d := SubScaled(g, 1.0, beta);
      ObjectiveGap(X, y, ridge, pen, beta, g, d);
      LengthNonNegative(X, ridge, pen, d);
      if Length(X, ridge, pen, d) == 0.0 {
        ZeroLengthKeepsSolving(X, y, ridge, pen, beta, g, d);
      }
    }
  }

  // ---- the loops

  /** Upper-triangle cells before (a, b) in reading order hold i + 1 observations, the rest i. */
  ghost predicate Accumulated(M: Mat, X: Mat, i: nat, a: nat, b: nat)
    requires IsMatrix(X, |X|, Width(X)) && i < |X|
  {
    && IsMatrix(M, Width(X), Width(X))
    && forall q, c :: 0 <= q <= c < Width(X) ==>
      M[q][c] == GramEntry(X, q, c, if q < a || (q == a && c < b) then i + 1 else i)
  }

  lemma AccumulateCell(M: Mat, X: Mat, i: nat, a: nat, b: nat)
    requires IsMatrix(X, |X|, Width(X)) && i < |X| && a <= b < Width(X) && Accumulated(M, X, i, a, b)
    ensures Accumulated(M[a := M[a][b := M[a][b] + X[i][a] * X[i][b]]], X, i, a, b + 1)
  {
    assert GramEntry(X, a, b, i + 1) == GramEntry(X, a, b, i) + X[i][a] * X[i][b];
  }

  /** One observation: only the upper triangle is accumulated. */
  method AccumulateRow(XtX: array<seq<real>>, Xty: array<real>, X: Mat, y: Vec, i: nat)
    requires Design(X, y) && i < |X| && XtX.Length == Xty.Length == Width(X)
    requires Accumulated(XtX[..], X, i, 0, 0) && Xty[..] == MomentVec(X, y, i)
    modifies XtX, Xty
    ensures Accumulated(XtX[..], X, i, Width(X), Width(X)) && Xty[..] == MomentVec(X, y, i + 1)
  {
    var p, row, yi := Width(X), X[i], y[i];
    for a := 0 to p
      invariant Accumulated(XtX[..], X, i, a, a)
      invariant forall q :: 0 <= q < p ==> Xty[q] == Moment(X, y, q, if q < a then i + 1 else i)
    {
      assert Moment(X, y, a, i + 1) == Moment(X, y, a, i) + row[a] * yi;
      Xty[a] := Xty[a] + row[a] * yi;
      ghost var sums := Xty[..];
      for b := a to p
        invariant Accumulated(XtX[..], X, i, a, b) && Xty[..] == sums
      {
        ghost var before := XtX[..];
        AccumulateCell(before, X, i, a, b);
        XtX[a] := XtX[a][b := XtX[a][b] + row[a] * row[b]];
        assert XtX[..] == before[a := XtX[a]];
      }
    }
  }

  /** Lower-triangle cells of columns left of a, and of column a above row b, copy the upper ones. */
  ghost predicate MirroredUpTo(M: Mat, T: Mat, p: nat, a: nat, b: nat)
    requires IsMatrix(T, p, p)
  {
    && IsMatrix(M, p, p)
    && forall q, c :: 0 <= q < p && 0 <= c < p ==> M[q][c] == MirrorOf(T, p, a, b, q, c)
  }

  function MirrorOf(T: Mat, p: nat, a: nat, b: nat, q: nat, c: nat): real
    requires IsMatrix(T, p, p) && q < p && c < p
  {
    if c < q && (c < a || (c == a && q < b)) then T[c][q] else T[q][c]
  }

  lemma MirrorCell(M: Mat, T: Mat, p: nat, a: nat, b: nat)
    requires IsMatrix(T, p, p) && a < b < p && MirroredUpTo(M, T, p, a, b)
    ensures MirroredUpTo(M[b := M[b][a := M[a][b]]], T, p, a, b + 1)
  {
    assert MirrorOf(T, p, a, b, a, b) == T[a][b];
  }

  /** Copy the upper triangle onto the lower one. */
  method Mirror(XtX: array<seq<real>>, p: nat)
    requires XtX.Length == p && IsMatrix(XtX[..], p, p)
    modifies XtX
    ensures MirroredUpTo(XtX[..], old(XtX[..]), p, p, p + 1)
  {
    ghost var T := XtX[..];
    for a := 0 to p
      invariant MirroredUpTo(XtX[..], T, p, a, a + 1)
    {
      for b := a + 1 to p
        invariant MirroredUpTo(XtX[..], T, p, a, b)
      {
        ghost var before := XtX[..];
        MirrorCell(before, T, p, a, b);
        XtX[b] := XtX[b][a := XtX[a][b]];
        assert XtX[..] == before[b := XtX[b]];
      }
      MirrorNextColumn(XtX[..], T, p, a);
    }
  }

  lemma MirrorNextColumn(M: Mat, T: Mat, p: nat, a: nat)
    requires IsMatrix(T, p, p) && a < p && MirroredUpTo(M, T, p, a, p)
    ensures MirroredUpTo(M, T, p, a + 1, a + 2)
  {}

  /** The first a diagonal cells carry their penalty. */
  ghost predicate PenalisedUpTo(M: Mat, T: Mat, p: nat, ridge: real, pen: bool, a: nat)
    requires IsMatrix(T, p, p)
  {
    && IsMatrix(M, p, p)
    && forall q, c :: 0 <= q < p && 0 <= c < p ==>
      M[q][c] == T[q][c] + if q == c && q < a then PenaltyAt(q, ridge, pen) else 0.0
  }

  method AddPenalty(XtX: array<seq<real>>, p: nat, ridge: real, penalizeIntercept: bool)
    requires XtX.Length == p && IsMatrix(XtX[..], p, p)
    modifies XtX
    ensures PenalisedUpTo(XtX[..], old(XtX[..]), p, ridge, penalizeIntercept, p)
  {
    ghost var T := XtX[..];
    for a := 0 to p
      invariant PenalisedUpTo(XtX[..], T, p, ridge, penalizeIntercept, a)
    {
      if a == 0 && !penalizeIntercept { continue; }
      ghost var before := XtX[..];
      XtX[a] := XtX[a][a := XtX[a][a] + ridge];
      assert XtX[..] == before[a := before[a][a := before[a][a] + ridge]];
    }
  }

  /** The accumulate, mirror and penalise loops build exactly the normal equations. */
  method BuildNormalEquations(X: Mat, y: Vec, ridge: real, penalizeIntercept: bool) returns (N: Mat, r: Vec)
    requires Design(X, y)
    ensures N == NormalMatrix(X, ridge, penalizeIntercept) && r == NormalRhs(X, y)
  {
    var m, p := |X|, Width(X);
    var XtX := new seq<real>[p](_ => Zeros(p));
    var Xty := new real[p](_ => 0.0);
    for i := 0 to m
      invariant IsMatrix(XtX[..], p, p) && Xty[..] == MomentVec(X, y, i)
      invariant forall a, b :: 0 <= a <= b < p ==> XtX[..][a][b] == GramEntry(X, a, b, i)
    {
      AccumulateRow(XtX, Xty, X, y, i);
    }
    ghost var upper := XtX[..];
    Mirror(XtX, p);
    ghost var gram := XtX[..];
    AddPenalty(XtX, p, ridge, penalizeIntercept);
    N, r := XtX[..], Xty[..];
    forall a, b | 0 <= a < p && 0 <= b < p ensures gram[a][b] == GramEntry(X, a, b, m) {
      GramCellBuilt(X, upper, gram, a, b);
    }
    NormalMatrixBuilt(X, ridge, penalizeIntercept, gram, N);
  }

  lemma GramCellBuilt(X: Mat, upper: Mat, gram: Mat, a: nat, b: nat)
    requires IsMatrix(X, |X|, Width(X)) && IsMatrix(upper, Width(X), Width(X)) && a < Width(X) && b < Width(X)
    requires forall q, c :: 0 <= q <= c < Width(X) ==> upper[q][c] == GramEntry(X, q, c, |X|)
    requires MirroredUpTo(gram, upper, Width(X), Width(X), Width(X) + 1)
    ensures gram[a][b] == GramEntry(X, a, b, |X|)
  {
    GramSymmetric(X, a, b, |X|);
  }

  lemma NormalMatrixBuilt(X: Mat, ridge: real, pen: bool, gram: Mat, N: Mat)
    requires IsMatrix(X, |X|, Width(X)) && IsMatrix(gram, Width(X), Width(X))
    requires forall a, b :: 0 <= a < Width(X) && 0 <= b < Width(X) ==> gram[a][b] == GramEntry(X, a, b, |X|)
    requires PenalisedUpTo(N, gram, Width(X), ridge, pen, Width(X))
    ensures N == NormalMatrix(X, ridge, pen)
  {
    forall a, b | 0 <= a < Width(X) && 0 <= b < Width(X) ensures N[a][b] == NormalRow(X, ridge, pen, a)[b] {
      NormalCellBuilt(X, ridge, pen, gram, N, a, b);
    }
    CellsMakeMatrix(X, ridge, pen, N);
  }

  lemma CellsMakeMatrix(X: Mat, ridge: real, pen: bool, N: Mat)
    requires IsMatrix(X, |X|, Width(X)) && IsMatrix(N, Width(X), Width(X))
    requires forall a, b :: 0 <= a < Width(X) && 0 <= b < Width(X) ==> N[a][b] == NormalRow(X, ridge, pen, a)[b]
    ensures N == NormalMatrix(X, ridge, pen)
  {
    forall a | 0 <= a < Width(X) ensures N[a] == NormalRow(X, ridge, pen, a) {}
  }

  lemma NormalCellBuilt(X: Mat, ridge: real, pen: bool, gram: Mat, N: Mat, a: nat, b: nat)
    requires IsMatrix(X, |X|, Width(X)) && IsMatrix(gram, Width(X), Width(X)) && a < Width(X) && b < Width(X)
    requires gram[a][b] == GramEntry(X, a, b, |X|)
    requires PenalisedUpTo(N, gram, Width(X), ridge, pen, Width(X))
    ensures N[a][b] == NormalRow(X, ridge, pen, a)[b]
  {}

  // ---- refusals

  function AbsSum(d: Vec, n: nat): real
    requires n <= |d|
  {
    if n == 0 then 0.0 else AbsSum(d, n - 1) + Abs(d[n - 1])
  }

  lemma TimesAbsBound(x: real, v: real, t: real)
    requires Abs(v) < t
    ensures Times(x, v) <= Times(t, Abs(x))
  {
    if x >= 0.0 { TimesGrows(v, t, x); } else { TimesGrows(-v, t, -x); }
  }

  lemma {:induction false} DotWithinTolerance(d: Vec, v: Vec, t: real, n: nat)
    requires n <= |d| && n <= |v| && forall i :: 0 <= i < n ==> Abs(v[i]) < t
    ensures Dot(d, v, n) <= Times(t, AbsSum(d, n))
  {
    if n > 0 {
      DotWithinTolerance(d, v, t, n - 1);
      TimesAbsBound(d[n - 1], v[n - 1], t);
      assert Times(d[n - 1], v[n - 1]) == d[n - 1] * v[n - 1];
      TimesPlus(t, AbsSum(d, n - 1), Abs(d[n - 1]));
    }
  }

  /** d . (X'X + Lambda) d is the squared length of d. */
  lemma NormalFormIsLength(X: Mat, ridge: real, pen: bool, d: Vec, v: Vec)
    requires IsMatrix(X, |X|, Width(X)) && |d| == |v| == Width(X)
    requires forall a :: 0 <= a < |d| ==> v[a] == Dot(NormalRow(X, ridge, pen, a), d, |d|)
    ensures Dot(d, v, |d|) == Length(X, ridge, pen, d)
  {
    var z, n := Predict(X, d), |X|;
    forall a | 0 <= a < |d| ensures v[a] == MomentVec(X, z, n)[a] + Weighted(d, ridge, pen)[a] {
      NormalRowApplied(X, ridge, pen, d, a);
    }
    DotPlus(MomentVec(X, z, n), Weighted(d, ridge, pen), v, d, |d|);
    TransposeMoves(X, z, d, n);
    DotSymmetric(d, v, |d|);
  }

  /** Where the solver refuses, some direction with a coordinate of one is shorter than 1e-12 times
      the sum of its magnitudes: the columns are collinear up to the tolerance, penalty included. */
  lemma RefusedIsCollinear(X: Mat, ridge: real, pen: bool) returns (d: Vec, k: nat)
    requires IsMatrix(X, |X|, Width(X)) && Refused(NormalMatrix(X, ridge, pen), 0)
    ensures |d| == Width(X) && k < |d| && d[k] == 1.0
    ensures Length(X, ridge, pen, d) <= Times(PIVOT_TOLERANCE, AbsSum(d, |d|))
  {
    var N := NormalMatrix(X, ridge, pen);
    RefusedBetweenSingularAndNearlySingular(N);
    d, k :| Vanishes(N, d, k, 0);
    var v := Predict(N, d);
    forall a | 0 <= a < |d| ensures v[a] == Dot(NormalRow(X, ridge, pen, a), d, |d|) && Abs(v[a]) < PIVOT_TOLERANCE {
      assert N[a] == NormalRow(X, ridge, pen, a);
    }
    NormalFormIsLength(X, ridge, pen, d, v);
    DotWithinTolerance(d, v, PIVOT_TOLERANCE, |d|);
  }

  lemma EliminatedEntry(h: real, e: real)
    requires h > 0.0
    ensures h - 1.0 / h * (h * h + e) == -e / h
  {}

  lemma TwoByTwoCleared(N: Mat, h: real, e: real)
    requires h > 1.0 && N == [[1.0, h], [h, h * h + e]]
    ensures Pivoted(N, 0) == [N[1], N[0]]
    ensures Cleared(Pivoted(N, 0), 0)[1][1] == -e / h
  {
    assert PivotRow(N, 0, 1) == 0 && PivotRow(N, 0, 2) == 1;
    assert Pivoted(N, 0) == [N[1], N[0]];
    EliminatedEntry(h, e);
  }

  lemma LastColumnRefused(Q: Mat)
    requires IsMatrix(Q, 2, 2)
    ensures Refused(Q, 1) <==> Abs(Q[1][1]) < PIVOT_TOLERANCE
  {
    assert Pivoted(Q, 1)[1] == Q[1];
    hide Cleared;
  }

  lemma TwoByTwoRefused(N: Mat, h: real, e: real)
    requires h > 1.0 && N == [[1.0, h], [h, h * h + e]]
    ensures Refused(N, 0) <==> Abs(e / h) < PIVOT_TOLERANCE
  {
    TwoByTwoCleared(N, h, e);
    var P := Pivoted(N, 0);
    var Q := Cleared(P, 0);
    LastColumnRefused(Q);
    assert Refused(N, 0) <==> Abs(P[0][0]) < PIVOT_TOLERANCE || Refused(Q, 1);
    assert P[0][0] == h;
    assert -e / h == -(e / h);
    hide *;
  }

  lemma DotOfTwo(u: Vec, v: Vec)
    requires |u| == |v| == 2
    ensures Dot(u, v, 2) == u[0] * v[0] + u[1] * v[1]
  {
    assert Dot(u, v, 1) == Dot(u, v, 0) + u[0] * v[0];
  }

  lemma TwoByTwoRegular(N: Mat, h: real, e: real)
    requires e != 0.0 && N == [[1.0, h], [h, h * h + e]]
    ensures !SingularMatrix(N)
  {
    forall w: Vec | Solves(N, Zeros(2), w) ensures w == Zeros(2) {
      assert Dot(N[0], w, 2) == 0.0 && Dot(N[1], w, 2) == 0.0;
      DotOfTwo(N[0], w);
      DotOfTwo(N[1], w);
      KernelOfTwo(h, e, w[0], w[1]);
    }
  }

  lemma KernelOfTwo(h: real, e: real, a: real, b: real)
    requires e != 0.0 && a + h * b == 0.0 && h * a + (h * h + e) * b == 0.0
    ensures a == 0.0 && b == 0.0
  {
    assert h * (a + h * b) == h * a + h * h * b;
    assert (h * h + e) * b == h * h * b + e * b;
    assert e * b == 0.0;
  }

  /** The penalty does not keep the solver from refusing: on one observation h > 1 beside the
      intercept it refuses exactly where the penalty is below 1e-12 times h, although the normal
      equations have one solution whenever there is a penalty at all. */
  lemma OneObservationRefused(h: real, ridge: real)
    requires h > 1.0 && ridge > 0.0
    ensures Refused(NormalMatrix([[1.0, h]], ridge, false), 0) <==> ridge / h < 0.000000000001
    ensures !SingularMatrix(NormalMatrix([[1.0, h]], ridge, false))
  {
    var N := NormalMatrix([[1.0, h]], ridge, false);
    assert N == [[1.0, h], [h, h * h + ridge]] by { OneObservation(h, ridge); }
    TwoByTwoRefused(N, h, ridge);
    TwoByTwoRegular(N, h, ridge);
  }

  lemma OneObservation(h: real, ridge: real)
    ensures NormalMatrix([[1.0, h]], ridge, false) == [[1.0, h], [h, h * h + ridge]]
  {
    var X, N := [[1.0, h]], NormalMatrix([[1.0, h]], ridge, false);
    forall a: nat, b: nat | a < 2 && b < 2 ensures GramEntry(X, a, b, 1) == X[0][a] * X[0][b] {
      assert GramEntry(X, a, b, 0) == 0.0;
    }
    assert N[0] == NormalRow(X, ridge, false, 0) && N[1] == NormalRow(X, ridge, false, 1);
    assert N[0] == [1.0, h];
    assert N[1][0] == h * 1.0 && N[1][1] == h * h + ridge;
    assert N[1] == [h, h * h + ridge];
    assert N == [N[0], N[1]];
  }

  /** `ridgeRegression`: the coefficients solve the normal equations alone and are the unique
      minimiser of the penalised squared error, exactly unless the solver refuses; then they are zero. */
  method Regress(X: Mat, y: Vec, ridge: real, penalizeIntercept: bool) returns (beta: Vec)
    requires Design(X, y)
    ensures |beta| == Width(X)
    ensures Refused(NormalMatrix(X, ridge, penalizeIntercept), 0) ==> beta == Zeros(Width(X))
    ensures !Refused(NormalMatrix(X, ridge, penalizeIntercept), 0) ==>
      && (forall v: Vec :: Solves(NormalMatrix(X, ridge, penalizeIntercept), NormalRhs(X, y), v) <==> v == beta)
      && (ridge >= 0.0 ==> UniqueMinimiser(X, y, ridge, penalizeIntercept, beta))
  {
    var m, p := |X|, Width(X);
    if m == 0 || p == 0 {
      beta := Zeros(p);
      assert beta == [];
      return;
    }
    var N, r := BuildNormalEquations(X, y, ridge, penalizeIntercept);
    var solved := SolveLinearSystem(N, r);
    match solved
    case Singular =>
      beta := Zeros(p);
    case Solved(v) =>
      assert Solves(N, r, v);
      beta := v;
      if ridge >= 0.0 {
        SoleSolutionIsUniqueMinimiser(X, y, ridge, penalizeIntercept, beta);
      }
  }
}

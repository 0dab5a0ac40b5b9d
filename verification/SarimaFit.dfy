/** Fitting SARIMA: recording the differences, choosing lags, and the two regressions. */
module SarimaFit {
  import opened LinearAlgebra
  import opened RidgeRegression
  import opened Sarima
  import opened Sorting

  const RIDGE: real := 0.0001

  function Min(a: int, b: int): int { if a < b then a else b }
  function Max(a: int, b: int): int { if a < b then b else a }

  // ---- differencing with recorded stages

  /** d differences at lag 1, then D at the season. */
  function LagStack(d: nat, D: nat, m: Lag): (lags: seq<Lag>)
    ensures |lags| == d + D && forall i :: 0 <= i < |lags| ==> lags[i] == if i < d then 1 else m
    decreases D, d
  {
    if D > 0 then LagStack(d, D - 1, m) + [m]
    else if d > 0 then LagStack(d - 1, 0, m) + [1]
    else []
  }

  lemma {:induction false} OneMoreDifference(s: Vec, lags: seq<Lag>, lag: Lag)
    ensures Stationary(s, lags + [lag]) == Diff(Stationary(s, lags), lag)
    ensures StagesOf(s, lags + [lag]) == StagesOf(s, lags) + [Stage(lag, Stationary(s, lags))]
    decreases |lags|
  {
    if lags == [] {
      assert StagesOf(Diff(s, lag), []) == [];
      assert Stationary(Diff(s, lag), []) == Diff(s, lag);
      assert (lags + [lag])[1..] == [];
    } else {
      assert (lags + [lag])[1..] == lags[1..] + [lag];
      OneMoreDifference(Diff(s, lags[0]), lags[1..], lag);
    }
  }

  method RecordStages(values: Vec, d: nat, D: nat, m: Lag) returns (stages: seq<Stage>, z: Vec)
    ensures stages == StagesOf(values, LagStack(d, D, m)) && z == Stationary(values, LagStack(d, D, m))
  {
    stages, z := [], values;
    for i := 0 to d
      invariant stages == StagesOf(values, LagStack(i, 0, m)) && z == Stationary(values, LagStack(i, 0, m))
    {
      OneMoreDifference(values, LagStack(i, 0, m), 1);
      stages := stages + [Stage(1, z)];
      z := DifferenceOnce(z, 1);
    }
    for i := 0 to D
      invariant stages == StagesOf(values, LagStack(d, i, m)) && z == Stationary(values, LagStack(d, i, m))
    {
      OneMoreDifference(values, LagStack(d, i, m), m);
      stages := stages + [Stage(m, z)];
      z := DifferenceOnce(z, m);
    }
  }

  // ---- lags

  /** The lags 1..order and the multiples of the season up to seasonalOrder. */
  predicate IsLag(l: int, order: nat, seasonalOrder: nat, m: Lag) {
    1 <= l <= order || exists s: nat | 1 <= s <= seasonalOrder :: l == s * m
  }

  /** `buildLags`: exactly those lags, each once, ascending. */
  method BuildLags(order: nat, seasonalOrder: nat, m: Lag) returns (lags: seq<Lag>)
    ensures forall l :: l in lags <==> IsLag(l, order, seasonalOrder, m)
    ensures Ascending(lags) && Distinct(lags)
  {
    var found: seq<int> := [];
    for i := 1 to order + 1
      invariant Distinct(found) && forall l :: l in found <==> IsLag(l, i - 1, 0, m)
    {
      DistinctAppend(found, i);
      found := found + [i];
    }
    for s := 1 to seasonalOrder + 1
      invariant Distinct(found) && forall l :: l in found <==> IsLag(l, order, s - 1, m)
    {
      var lag := s * m;
      OneMoreMultiple(order, s, m);
      if lag !in found {
        DistinctAppend(found, lag);
        found := found + [lag];
      }
    }
    forall l | l in found ensures l >= 1 { LagIsPositive(l, order, seasonalOrder, m); }
    var sorted := Sorted(found);
    SortedDistinct(found);
    assert forall i :: 0 <= i < |sorted| ==> sorted[i] in sorted;
    lags := sorted;
  }

  lemma OneMoreMultiple(order: nat, s: nat, m: Lag)
    requires s >= 1
    ensures forall l :: IsLag(l, order, s, m) <==> IsLag(l, order, s - 1, m) || l == s * m
  {}

  lemma LagIsPositive(l: int, order: nat, seasonalOrder: nat, m: Lag)
    requires IsLag(l, order, seasonalOrder, m)
    ensures l >= 1
  {
    if !(1 <= l <= order) {
      var s: nat :| 1 <= s <= seasonalOrder && l == s * m;
      assert s * m >= 1;
    }
  }

  method MaxLag(arLags: seq<Lag>, maLags: seq<Lag>) returns (maxLag: nat)
    ensures forall i :: 0 <= i < |arLags| ==> arLags[i] <= maxLag
    ensures forall j :: 0 <= j < |maLags| ==> maLags[j] <= maxLag
    ensures maxLag == 0 <==> arLags == [] && maLags == []
    ensures maxLag > 0 ==> maxLag in arLags || maxLag in maLags
  {
    maxLag := 0;
    var all := arLags + maLags;
    for i := 0 to |all|
      invariant forall j :: 0 <= j < i ==> all[j] <= maxLag
      invariant if i == 0 then maxLag == 0 else maxLag in all[..i]
    {
      if all[i] > maxLag { maxLag := all[i]; }
      assert all[..i + 1] == all[..i] + [all[i]];
    }
    assert all[..|all|] == all;
    forall i | 0 <= i < |arLags| ensures arLags[i] <= maxLag { assert all[i] == arLags[i]; }
    forall j | 0 <= j < |maLags| ensures maLags[j] <= maxLag { assert all[|arLags| + j] == maLags[j]; }
  }

  /** The largest of all lags, zero without any. */
  function LargestLag(p: nat, P: nat, q: nat, Q: nat, m: Lag): nat {
    Max(Max(p, P * m), Max(q, Q * m))
  }

  lemma LagsOfOrder(order: nat, seasonalOrder: nat, m: Lag)
    ensures forall l :: IsLag(l, order, seasonalOrder, m) ==> l <= Max(order, seasonalOrder * m)
    ensures var top := Max(order, seasonalOrder * m); top > 0 ==> IsLag(top, order, seasonalOrder, m)
  {
    forall l | IsLag(l, order, seasonalOrder, m) ensures l <= Max(order, seasonalOrder * m) {
      if !(1 <= l <= order) {
        var s: nat :| 1 <= s <= seasonalOrder && l == s * m;
        assert s * m <= seasonalOrder * m;
      }
    }
    if seasonalOrder > 0 { assert IsLag(seasonalOrder * m, order, seasonalOrder, m); }
  }

  // ---- the two regressions

  /** The row for time t: an intercept, the series at each lag, the innovations at each lag. */
  function LagRow(arLags: seq<Lag>, maLags: seq<Lag>, z: Vec, epsilon: Vec, t: nat): (row: Vec)
    requires t <= |z| && t <= |epsilon|
    requires forall i :: 0 <= i < |arLags| ==> arLags[i] <= t
    requires forall j :: 0 <= j < |maLags| ==> maLags[j] <= t
    ensures |row| == 1 + |arLags| + |maLags|
  {
    [1.0] + seq(|arLags|, i requires 0 <= i < |arLags| => z[t - arLags[i]])
          + seq(|maLags|, j requires 0 <= j < |maLags| => epsilon[t - maLags[j]])
  }

  /** The design over the times from start on. */
  function LagDesign(arLags: seq<Lag>, maLags: seq<Lag>, z: Vec, epsilon: Vec, start: nat): (X: Mat)
    requires start <= |z| == |epsilon|
    requires forall i :: 0 <= i < |arLags| ==> arLags[i] <= start
    requires forall j :: 0 <= j < |maLags| ==> maLags[j] <= start
    ensures |X| == |z| - start
  {
    seq(|z| - start, r requires 0 <= r < |z| - start =>
      LagRow(arLags, maLags, z, epsilon, start + r))
  }

  /** beta regresses the targets on the design: the unique minimiser of the penalised squared
      error, and zeros exactly where the solver refuses the normal equations instead. */
  ghost predicate Regressed(X: Mat, y: Vec, beta: Vec) {
    && X != [] && Design(X, y) && |beta| == Width(X)
    && if LinearSolver.Refused(NormalMatrix(X, 0.0001, false), 0)
      then beta == Zeros(Width(X))
      else UniqueMinimiser(X, y, 0.0001, false, beta)
  }

  /** The loops that collect the design and the targets, and the regression on them. */
  method RegressOnLags(arLags: seq<Lag>, maLags: seq<Lag>, z: Vec, epsilon: Vec, start: nat) returns (beta: Vec)
    requires start < |z| == |epsilon|
    requires forall i :: 0 <= i < |arLags| ==> arLags[i] <= start
    requires forall j :: 0 <= j < |maLags| ==> maLags[j] <= start
    ensures Regressed(LagDesign(arLags, maLags, z, epsilon, start), z[start..], beta)
  {
    var X: Mat, y: Vec := [], [];
    for t := start to |z|
      invariant |X| == |y| == t - start && y == z[start..t]
      invariant forall r :: 0 <= r < |X| ==> X[r] == LagRow(arLags, maLags, z, epsilon, start + r)
    {
      var row := [1.0];
      for i := 0 to |arLags|
        invariant row == LagRow(arLags, maLags, z, epsilon, t)[..1 + i]
      {
        row := row + [z[t - arLags[i]]];
      }
      for j := 0 to |maLags|
        invariant row == LagRow(arLags, maLags, z, epsilon, t)[..1 + |arLags| + j]
      {
        row := row + [epsilon[t - maLags[j]]];
      }
      X := X + [row];
      y := y + [z[t]];
    }
    assert X == LagDesign(arLags, maLags, z, epsilon, start) && y == z[start..];
    beta := Regress(X, y, RIDGE, false);
  }

  lemma RegressedWidth(arLags: seq<Lag>, maLags: seq<Lag>, z: Vec, epsilon: Vec, start: nat, beta: Vec)
    requires start < |z| == |epsilon|
    requires forall i :: 0 <= i < |arLags| ==> arLags[i] <= start
    requires forall j :: 0 <= j < |maLags| ==> maLags[j] <= start
    requires Regressed(LagDesign(arLags, maLags, z, epsilon, start), z[start..], beta)
    ensures |beta| == 1 + |arLags| + |maLags|
  {
    assert LagDesign(arLags, maLags, z, epsilon, start)[0] == LagRow(arLags, maLags, z, epsilon, start + 0);
  }

  /** 1, ..., order */
  function FirstLags(order: nat): (lags: seq<Lag>)
    ensures |lags| == order && forall i :: 0 <= i < order ==> lags[i] == i + 1
  {
    seq(order, i => i + 1)
  }

  /** What the long autoregression leaves unexplained at time t. */
  function Unexplained(z: Vec, beta: Vec, order: nat, t: nat): real
    requires order <= t < |z| && |beta| == 1 + order
  {
    z[t] - Dot(beta, LagRow(FirstLags(order), [], z, z, t), 1 + order)
  }

  /** Nothing before the order, then what the long autoregression leaves unexplained. */
  ghost predicate Innovations(z: Vec, order: nat, beta: Vec, epsilon: Vec) {
    && order < |z| == |epsilon| && |beta| == 1 + order
    && forall t :: 0 <= t < |z| ==> epsilon[t] == if t < order then 0.0 else Unexplained(z, beta, order, t)
  }

  /** An innovation is what is missing to the series after its regression on what came before. */
  lemma InnovationsExactly(z: Vec, order: nat, beta: Vec, epsilon: Vec)
    requires order < |z| == |epsilon| && |beta| == 1 + order
    ensures Innovations(z, order, beta, epsilon) <==>
      && (forall t :: 0 <= t < order ==> epsilon[t] == 0.0)
      && forall t :: order <= t < |z| ==>
           z[t] == Dot(beta, LagRow(FirstLags(order), [], z, z, t), 1 + order) + epsilon[t]
  {
    hide Dot, LagRow;
  }

  /** The accumulator loop over the lags. */
  method LongPrediction(z: Vec, beta: Vec, order: nat, t: nat) returns (pred: real)
    requires order <= t < |z| && |beta| == 1 + order
    ensures z[t] - pred == Unexplained(z, beta, order, t)
  {
    ghost var row := LagRow(FirstLags(order), [], z, z, t);
    pred := beta[0];
    assert Dot(beta, row, 1) == Dot(beta, row, 0) + beta[0] * row[0];
    for l := 1 to order + 1
      invariant pred == Dot(beta, row, l)
    {
      assert row[l] == z[t - l];
      pred := pred + beta[l] * z[t - l];
    }
  }

  /** `estimateInnovations` */
  method EstimateInnovations(z: Vec, order: nat) returns (epsilon: Vec, beta: Vec)
    requires order < |z|
    ensures Innovations(z, order, beta, epsilon)
    ensures Regressed(LagDesign(FirstLags(order), [], z, z, order), z[order..], beta)
  {
    hide Regressed, LagRow, LagDesign, Unexplained, Dot;
    beta := RegressOnLags(FirstLags(order), [], z, z, order);
    RegressedWidth(FirstLags(order), [], z, z, order, beta);
    epsilon := Residues(z, beta, order);
  }

  /** The loop over the predictions of the long autoregression. */
  method Residues(z: Vec, beta: Vec, order: nat) returns (epsilon: Vec)
    requires order < |z| && |beta| == 1 + order
    ensures Innovations(z, order, beta, epsilon)
  {
    hide LagRow, Unexplained, Dot;
    epsilon := Zeros(|z|);
    for t := order to |z|
      invariant |epsilon| == |z|
      invariant forall k :: 0 <= k < |z| ==>
        epsilon[k] == if order <= k < t then Unexplained(z, beta, order, k) else 0.0
    {
      var pred := LongPrediction(z, beta, order, t);
      epsilon := epsilon[t := z[t] - pred];
    }
  }

  // ---- fit

  function Mean(z: Vec): real {
    if z == [] then 0.0 else Sum(z) / |z| as real
  }

  function Sum(z: Vec): real { if z == [] then 0.0 else Sum(z[..|z| - 1]) + z[|z| - 1] }

  /** The order of the long autoregression. */
  function LongOrder(n: nat, maxLag: nat): nat { Min(Max(maxLag + 2, 8), n / 3) }

  /** The greatest order within a third of the series that is at most eight, or at most two past
      every lag. */
  predicate IsLongOrder(order: nat, n: nat, maxLag: nat) {
    && 3 * order <= n && (order <= 8 || order <= maxLag + 2)
    && (3 * (order + 1) > n || (order >= 8 && order >= maxLag + 2))
  }

  /** The model's coefficients regress the series on its own lags and the innovations'. */
  ghost predicate Estimated(model: Arma, z: Vec, epsilon: Vec, start: nat) {
    && start < |z| == |epsilon|
    && (forall i :: 0 <= i < |model.arLags| ==> model.arLags[i] <= start)
    && (forall j :: 0 <= j < |model.maLags| ==> model.maLags[j] <= start)
    && Regressed(LagDesign(model.arLags, model.maLags, z, epsilon, start), z[start..],
                 [model.c] + model.phi + model.theta)
  }

  /** The two stages of the fit: the innovations are what a long autoregression leaves unexplained,
      and the coefficients regress the series on its own lags and theirs, from where both exist. */
  ghost predicate HannanRissanen(model: Arma, z: Vec, epsilon: Vec, maxLag: nat) {
    exists order: nat, long :: TwoStages(model, z, epsilon, maxLag, order, long)
  }

  ghost predicate TwoStages(model: Arma, z: Vec, epsilon: Vec, maxLag: nat, order: nat, long: Vec) {
    && IsLongOrder(order, |z|, maxLag)
    && Innovations(z, order, long, epsilon)
    && Regressed(LagDesign(FirstLags(order), [], z, z, order), z[order..], long)
    && Estimated(model, z, epsilon, if order > maxLag then order else maxLag)
  }

  function Unpacked(beta: Vec, arLags: seq<Lag>, maLags: seq<Lag>): (model: Arma)
    requires |beta| == 1 + |arLags| + |maLags|
    ensures model.arLags == arLags && model.maLags == maLags
    ensures |model.phi| == |arLags| && |model.theta| == |maLags| && [model.c] + model.phi + model.theta == beta
  {
    Arma(beta[0], beta[1..1 + |arLags|], beta[1 + |arLags|..], arLags, maLags)
  }

  lemma LongOrderFits(n: nat, maxLag: nat)
    requires n >= maxLag + 5
    ensures IsLongOrder(LongOrder(n, maxLag), n, maxLag)
    ensures LongOrder(n, maxLag) < n && maxLag <= Max(maxLag, LongOrder(n, maxLag)) < n
  {}

  method FitArma(arLags: seq<Lag>, maLags: seq<Lag>, z: Vec, maxLag: nat)
    returns (model: Arma, epsilon: Vec, longOrder: nat, long: Vec)
    requires |z| >= maxLag + 5
    requires forall i :: 0 <= i < |arLags| ==> arLags[i] <= maxLag
    requires forall j :: 0 <= j < |maLags| ==> maLags[j] <= maxLag
    ensures model.arLags == arLags && model.maLags == maLags && |epsilon| == |z| && Fits(model, |z|)
    ensures TwoStages(model, z, epsilon, maxLag, longOrder, long)
  {
    hide Innovations, Regressed, LagDesign, LagRow, Unpacked, Dot, Unexplained, LongOrder, IsLongOrder;
    LongOrderFits(|z|, maxLag);
    longOrder := LongOrder(|z|, maxLag);
    epsilon, long := EstimateInnovations(z, longOrder);
    assert |epsilon| == |z| by { InnovationsSized(z, longOrder, long, epsilon); }
    var start := Max(maxLag, longOrder);
    var beta := RegressOnLags(arLags, maLags, z, epsilon, start);
    RegressedWidth(arLags, maLags, z, epsilon, start, beta);
    model := Unpacked(beta, arLags, maLags);
    assert Estimated(model, z, epsilon, start);
  }

  lemma InnovationsSized(z: Vec, order: nat, beta: Vec, epsilon: Vec)
    requires Innovations(z, order, beta, epsilon)
    ensures |epsilon| == |z|
  {}

  /** `fit`, up to rounding and metrics. `strong` says that the autocorrelation at the season is
      above the code's threshold. */
  method Fit(values: Vec, p: nat, d: nat, q: nat, P: nat, D: nat, Q: nat, m: Lag, strong: bool)
    returns (state: State, ghost lags: seq<Lag>)
    requires m >= 2
    ensures lags == LagStack(d, if D == P == Q == 0 && |values| >= 3 * m && strong then 1 else D, m)
    ensures Trained(state, values, lags)
    ensures state.Fallback? ==> state.drift == Mean(Stationary(values, lags))
    ensures state.Fitted? <==> 0 < LargestLag(p, P, q, Q, m) <= |Stationary(values, lags)| - 5
    ensures state.Fitted? ==>
      && (forall l :: l in state.model.arLags <==> IsLag(l, p, P, m))
      && (forall l :: l in state.model.maLags <==> IsLag(l, q, Q, m))
      && HannanRissanen(state.model, state.z, state.epsilon, LargestLag(p, P, q, Q, m))
  {
    var seasonal := D;
    if D == 0 && P == 0 && Q == 0 && |values| >= 3 * m && strong { seasonal := 1; }
    lags := LagStack(d, seasonal, m);
    var stages, z := RecordStages(values, d, seasonal, m);
    var arLags := BuildLags(p, P, m);
    var maLags := BuildLags(q, Q, m);
    var maxLag := MaxLag(arLags, maLags);
    LagsOfOrder(p, P, m);
    LagsOfOrder(q, Q, m);
    assert maxLag == LargestLag(p, P, q, Q, m);
    hide IsLag, Fits, Stationary, StagesOf, LagStack, TwoStages;
    if |z| < maxLag + 5 || (arLags == [] && maLags == []) {
      state := Fallback(Mean(z), stages);
    } else {
      var model, epsilon, order, long := FitArma(arLags, maLags, z, maxLag);
      assert TwoStages(model, z, epsilon, maxLag, order, long);
      state := Fitted(model, z, epsilon, stages);
    }
  }

  /** The largest lag is the least bound of all the model's lags. */
  lemma LargestLagBounds(p: nat, P: nat, q: nat, Q: nat, m: Lag, n: nat)
    ensures LargestLag(p, P, q, Q, m) <= n <==> forall l :: IsLag(l, p, P, m) || IsLag(l, q, Q, m) ==> l <= n
  {
    LagsOfOrder(p, P, m);
    LagsOfOrder(q, Q, m);
    hide IsLag;
  }

  /** The mean of a series' first differences is its whole rise over its steps. */
  lemma DriftIsTheAverageStep(s: Vec)
    requires |s| >= 2
    ensures Times(Mean(Diff(s, 1)), (|s| - 1) as real) == s[|s| - 1] - s[0]
  {
    var d := Diff(s, 1);
    assert |d| == |s| - 1;
    StepsAddUp(s);
    hide Diff, Sum, Mean, Times;
    MeanTimes(d);
  }

  lemma MeanTimes(z: Vec)
    requires z != []
    ensures Times(Mean(z), |z| as real) == Sum(z)
  {
    hide Sum;
    QuotientTimes(Sum(z), |z| as real);
  }

  lemma {:induction false} StepsAddUp(s: Vec)
    requires |s| >= 1
    ensures Sum(Diff(s, 1)) == s[|s| - 1] - s[0]
  {
    var d, n := Diff(s, 1), |s| - 1;
    if n > 0 {
      StepsAddUp(s[..n]);
      assert d[..n - 1] == Diff(s[..n], 1);
    }
  }
}

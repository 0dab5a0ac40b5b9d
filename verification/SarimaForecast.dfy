/** Forecasting with SARIMA: the model that was fitted on a history, and the values it goes on with. */
module SarimaForecast {
  import opened LinearAlgebra
  import opened Sarima
  import opened SarimaFit

  /** Each value is the model's coefficients applied to a row of the same make as those they were
      estimated on: one, then the series at its lags, then the innovations at theirs, with the
      forecasts and innovations of zero after the history. */
  ghost predicate FollowsRegression(m: Arma, z: Vec, epsilon: Vec, f: Vec)
    requires |epsilon| == |z| && Fits(m, |z|)
  {
    forall h :: 0 <= h < |f| ==> f[h] == Regression(m, z + f, epsilon + Zeros(|f|), |z| + h)
  }

  function Regression(m: Arma, series: Vec, innovations: Vec, t: nat): real
    requires t <= |series| && t <= |innovations| && Fits(m, t)
  {
    Dot([m.c] + m.phi + m.theta, LagRow(m.arLags, m.maLags, series, innovations, t), 1 + |m.arLags| + |m.maLags|)
  }

  /** From a place on, u has the coefficients and the row the series at their lags. */
  ghost predicate Carries(u: Vec, row: Vec, start: nat, coeffs: Vec, lags: seq<Lag>, series: Vec, t: nat) {
    && |lags| == |coeffs| && t <= |series| && start + |lags| <= |u| && start + |lags| <= |row|
    && (forall i :: 0 <= i < |lags| ==> lags[i] <= t)
    && forall i :: 0 <= i < |lags| ==> u[start + i] == coeffs[i] && row[start + i] == series[t - lags[i]]
  }

  lemma {:induction false} LagsInRow(
      u: Vec, row: Vec, start: nat, coeffs: Vec, lags: seq<Lag>, series: Vec, t: nat, k: nat)
    requires Carries(u, row, start, coeffs, lags, series, t) && k <= |lags|
    ensures Dot(u, row, start + k) == Dot(u, row, start) + Lagged(coeffs, lags, series, t, k)
  {
    if k > 0 { LagsInRow(u, row, start, coeffs, lags, series, t, k - 1); }
  }

  lemma RowCarries(m: Arma, series: Vec, innovations: Vec, t: nat) returns (u: Vec, row: Vec)
    requires t <= |series| && t <= |innovations| && Fits(m, t)
    ensures |u| == |row| == 1 + |m.arLags| + |m.maLags| && u[0] == m.c && row[0] == 1.0
    ensures Carries(u, row, 1, m.phi, m.arLags, series, t)
    ensures Carries(u, row, 1 + |m.arLags|, m.theta, m.maLags, innovations, t)
    ensures Regression(m, series, innovations, t) == Dot(u, row, 1 + |m.arLags| + |m.maLags|)
  {
    hide Dot;
    u, row := [m.c] + m.phi + m.theta, LagRow(m.arLags, m.maLags, series, innovations, t);
  }

  lemma ExpectedIsRegression(m: Arma, series: Vec, innovations: Vec, t: nat)
    requires t <= |series| && t <= |innovations| && Fits(m, t)
    ensures Expected(m, series, innovations, t) == Regression(m, series, innovations, t)
  {
    hide Fits, Expected, Regression, Carries;
    var u, row := RowCarries(m, series, innovations, t);
    Intercept(u, row);
    RowApplied(m, u, row, series, innovations, t);
  }

  lemma RowApplied(m: Arma, u: Vec, row: Vec, series: Vec, innovations: Vec, t: nat)
    requires Fits(m, t) && t <= |series| && t <= |innovations| && |u| == |row| == 1 + |m.arLags| + |m.maLags|
    requires Dot(u, row, 1) == m.c && Carries(u, row, 1, m.phi, m.arLags, series, t)
    requires Carries(u, row, 1 + |m.arLags|, m.theta, m.maLags, innovations, t)
    ensures Expected(m, series, innovations, t) == Dot(u, row, 1 + |m.arLags| + |m.maLags|)
  {
    hide Lagged, Dot, Carries;
    LagsInRow(u, row, 1, m.phi, m.arLags, series, t, |m.arLags|);
    LagsInRow(u, row, 1 + |m.arLags|, m.theta, m.maLags, innovations, t, |m.maLags|);
  }

  lemma Intercept(u: Vec, row: Vec)
    requires |u| >= 1 && |row| >= 1 && row[0] == 1.0
    ensures Dot(u, row, 1) == u[0]
  {
    assert Dot(u, row, 1) == Dot(u, row, 0) + u[0] * row[0];
  }

  /** The recursion of the forecasts is the regression that estimated its coefficients. */
  lemma ForecastsFollowRegression(m: Arma, z: Vec, epsilon: Vec, f: Vec)
    requires |epsilon| == |z| && Fits(m, |z|)
    ensures Obeys(m, z, epsilon, f) <==> FollowsRegression(m, z, epsilon, f)
  {
    hide Expected, Regression;
    forall h | 0 <= h < |f|
      ensures f[h] == Expected(m, z + f, epsilon + Zeros(|f|), |z| + h)
        <==> f[h] == Regression(m, z + f, epsilon + Zeros(|f|), |z| + h)
    {
      ExpectedIsRegression(m, z + f, epsilon + Zeros(|f|), |z| + h);
    }
  }

  /** The model was estimated on the differenced history in the two stages, with the lags of the
      orders, and c continues the history so that its differences go on as the regression says. */
  ghost predicate Forecasts(
      values: Vec, lags: seq<Lag>, p: nat, q: nat, P: nat, Q: nat, m: Lag, model: Arma, epsilon: Vec, f: Vec, c: Vec)
  {
    var z := Stationary(values, lags);
    && |epsilon| == |z| && Fits(model, |z|) && HannanRissanen(model, z, epsilon, LargestLag(p, P, q, Q, m))
    && (forall l :: l in model.arLags <==> IsLag(l, p, P, m)) && (forall l :: l in model.maLags <==> IsLag(l, q, Q, m))
    && Stationary(values + c, lags) == z + f && FollowsRegression(model, z, epsilon, f)
  }

  lemma ContinuationIsForecast(values: Vec, lags: seq<Lag>, state: State, c: Vec) returns (f: Vec)
    requires Trained(state, values, lags) && state.Fitted?
    requires ExpectedContinuation(values, lags, state.model, state.epsilon, c)
    ensures |f| == |c| && Stationary(values + c, lags) == state.z + f
    ensures FollowsRegression(state.model, state.z, state.epsilon, f)
  {
    hide Obeys, Fits, FollowsRegression, Stationary;
    f :| |f| == |c| && Stationary(values + c, lags) == state.z + f && Obeys(state.model, state.z, state.epsilon, f);
    ForecastsFollowRegression(state.model, state.z, state.epsilon, f);
  }

  /** `generateForecast`, for this model: fit, then predict. */
  method FitAndPredict(
      values: Vec, p: nat, d: nat, q: nat, P: nat, D: nat, Q: nat, m: Lag, strong: bool, periods: nat)
    returns (level: seq<Number>, ghost lags: seq<Lag>)
    requires m >= 2
    ensures lags == LagStack(d, if D == P == Q == 0 && |values| >= 3 * m && strong then 1 else D, m)
    ensures |level| == periods
    ensures var z := Stationary(values, lags);
      && (0 < LargestLag(p, P, q, Q, m) <= |z| - 5 ==>
            exists model, epsilon, f, c :: |f| == periods && level == Numbers(c)
              && Forecasts(values, lags, p, q, P, Q, m, model, epsilon, f, c))
      && (!(0 < LargestLag(p, P, q, Q, m) <= |z| - 5) && |values| >= Span(lags) ==>
            exists c :: level == Numbers(c) && Stationary(values + c, lags) == z + seq(periods, _ => Mean(z)))
    ensures |values| < Span(lags) && periods > 0 ==> level[0] == NaN
  {
    hide Obeys, Fits, FollowsRegression, Stationary, StagesOf, ExpectedContinuation, HannanRissanen, IsLag, LagStack;
    var state;
    state, lags := Fit(values, p, d, q, P, D, Q, m, strong);
    level := Predict(state, periods, values, lags);
    if state.Fitted? {
      var c := Values(level);
      var f := ContinuationIsForecast(values, lags, state, c);
      assert state.z == Stationary(values, lags) && |state.epsilon| == |state.z| && Fits(state.model, |state.z|);
      assert Forecasts(values, lags, p, q, P, Q, m, state.model, state.epsilon, f, c);
    } else if |values| >= Span(lags) {
      var c := Values(level);
      assert level == Numbers(c);
    }
  }

  function Values(level: seq<Number>): (c: Vec)
    requires forall h :: 0 <= h < |level| ==> level[h].Num?
    ensures |c| == |level| && Numbers(c) == level
  {
    seq(|level|, h requires 0 <= h < |level| => level[h].value)
  }
}

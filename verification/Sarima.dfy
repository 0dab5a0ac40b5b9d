/** SARIMA: differencing to stationarity, the ARMA recursion, and integrating forecasts back. */
module Sarima {
  import opened LinearAlgebra
  import opened RidgeRegression
  import Sorting

  type Lag = n: int | n >= 1 witness 1

  /** A series as it was before a difference was taken, with the difference's lag. */
  datatype Stage = Stage(lag: Lag, series: Vec)

  // ---- one difference

  function Diff(s: Vec, lag: Lag): (d: Vec)
    ensures |d| == if |s| > lag then |s| - lag else 0
    ensures forall i :: 0 <= i < |d| ==> d[i] == s[i + lag] - s[i]
  {
    if |s| <= lag then [] else seq(|s| - lag, i requires 0 <= i < |s| - lag => s[i + lag] - s[i])
  }

  method DifferenceOnce(series: Vec, lag: Lag) returns (out: Vec)
    ensures out == Diff(series, lag)
  {
    out := [];
    var t := lag;
    while t < |series|
      invariant lag <= t && |out| == t - lag && (t <= |series| || out == [])
      invariant forall i :: 0 <= i < |out| ==> out[i] == series[i + lag] - series[i]
    {
      out := out + [series[t] - series[t - lag]];
      t := t + 1;
    }
  }

  /** r continues prev by the values whose difference at the lag is f. */
  ghost predicate Continues(prev: Vec, f: Vec, lag: Lag, r: Vec)
    requires lag <= |prev|
  {
    && |r| == |prev| + |f| && (forall i :: 0 <= i < |prev| ==> r[i] == prev[i])
    && forall h :: |prev| <= h < |r| ==> r[h] == f[h - |prev|] + r[h - lag]
  }

  /** The history and its continuation. */
  function Extend(prev: Vec, f: Vec, lag: Lag): (r: Vec)
    requires lag <= |prev|
    ensures |r| == |prev| + |f| && Continues(prev, f, lag, r)
  {
    if f == [] then prev
    else
      var r := Extend(prev, f[..|f| - 1], lag);
      r + [f[|f| - 1] + r[|r| - lag]]
  }

  function Integrated(prev: Vec, f: Vec, lag: Lag): (c: Vec)
    requires lag <= |prev|
    ensures |c| == |f| && prev + c == Extend(prev, f, lag)
  {
    Extend(prev, f, lag)[|prev|..]
  }

  lemma {:induction false} ContinuationUnique(prev: Vec, f: Vec, lag: Lag, r: Vec, q: Vec)
    requires lag <= |prev| && Continues(prev, f, lag, r) && Continues(prev, f, lag, q)
    ensures r == q
  {
    var h := 0;
    while h < |r|
      invariant 0 <= h <= |r| && r[..h] == q[..h]
    {
      if h >= |prev| {
        assert r[h - lag] == r[..h][h - lag] && q[h - lag] == q[..h][h - lag];
      }
      h := h + 1;
    }
    assert r == r[..h] && q == q[..h];
  }

  /** Differencing what was integrated gives the forecasts back after the history's own. */
  lemma DiffOfIntegrated(prev: Vec, f: Vec, lag: Lag)
    requires lag <= |prev|
    ensures Diff(prev + Integrated(prev, f, lag), lag) == Diff(prev, lag) + f
  {
    var r := Extend(prev, f, lag);
    var left, right := Diff(r, lag), Diff(prev, lag) + f;
    assert Continues(prev, f, lag, r);
    hide Diff, Extend, Integrated;
    assert |left| == |right|;
    forall i | 0 <= i < |left| ensures left[i] == right[i] {
      assert left[i] == r[i + lag] - r[i];
      if i + lag < |prev| {
        assert right[i] == Diff(prev, lag)[i];
      } else {
        assert right[i] == f[i + lag - |prev|];
      }
    }
  }

  /** The differences a continuation adds after the history's own. */
  function NewDiffs(prev: Vec, c: Vec, lag: Lag): (f: Vec)
    requires lag <= |prev|
    ensures |f| == |c| && forall h :: 0 <= h < |f| ==> f[h] == (prev + c)[|prev| + h] - (prev + c)[|prev| + h - lag]
  {
    var r := prev + c;
    seq(|c|, h requires 0 <= h < |c| => r[|prev| + h] - r[|prev| + h - lag])
  }

  lemma DiffsSplit(prev: Vec, c: Vec, lag: Lag)
    requires lag <= |prev|
    ensures Diff(prev + c, lag) == Diff(prev, lag) + NewDiffs(prev, c, lag)
  {
    var r, left := prev + c, Diff(prev + c, lag);
    var right := Diff(prev, lag) + NewDiffs(prev, c, lag);
    hide Diff, NewDiffs;
    assert |left| == |right|;
    forall i | 0 <= i < |left| ensures left[i] == right[i] {
      if i < |prev| - lag {
        assert r[i + lag] == prev[i + lag] && r[i] == prev[i];
        assert right[i] == Diff(prev, lag)[i];
      } else {
        assert right[i] == NewDiffs(prev, c, lag)[i - (|prev| - lag)];
      }
    }
  }

  /** Integrating the differences of a continuation gives the continuation. */
  lemma IntegratedOfDiff(prev: Vec, c: Vec, lag: Lag)
    requires lag <= |prev|
    ensures Integrated(prev, NewDiffs(prev, c, lag), lag) == c
  {
    hide Diff, Extend;
    var f := NewDiffs(prev, c, lag);
    assert Continues(prev, f, lag, prev + c);
    ContinuationUnique(prev, f, lag, prev + c, Extend(prev, f, lag));
    assert prev + Integrated(prev, f, lag) == prev + c;
    assert Integrated(prev, f, lag) == (prev + c)[|prev|..];
  }

  // ---- a stack of differences

  /** The series after all the differences, the first lag first. */
  function Stationary(s: Vec, lags: seq<Lag>): Vec
    decreases |lags|
  {
    if lags == [] then s else Stationary(Diff(s, lags[0]), lags[1..])
  }

  function StagesOf(s: Vec, lags: seq<Lag>): (stages: seq<Stage>)
    ensures |stages| == |lags|
    decreases |lags|
  {
    if lags == [] then [] else [Stage(lags[0], s)] + StagesOf(Diff(s, lags[0]), lags[1..])
  }

  /** Every stage's series is at least as long as its lag. */
  ghost predicate LongEnough(s: Vec, lags: seq<Lag>)
    decreases |lags|
  {
    lags != [] ==> |s| >= lags[0] && LongEnough(Diff(s, lags[0]), lags[1..])
  }

  ghost predicate Usable(stages: seq<Stage>) { forall st :: st in stages ==> st.lag <= |st.series| }

  /** The forecasts integrated through the stages, the last stage first. */
  function IntegrateAll(stages: seq<Stage>, f: Vec): (c: Vec)
    requires Usable(stages)
    ensures |c| == |f|
  {
    if stages == [] then f
    else Integrated(stages[0].series, IntegrateAll(stages[1..], f), stages[0].lag)
  }

  lemma {:induction false} LongEnoughIsUsable(s: Vec, lags: seq<Lag>)
    requires LongEnough(s, lags)
    ensures Usable(StagesOf(s, lags))
    decreases |lags|
  {
    if lags != [] { LongEnoughIsUsable(Diff(s, lags[0]), lags[1..]); }
  }

  /** A stationary series that is not empty came from stages that are long enough. */
  lemma {:induction false} NonEmptyIsLongEnough(s: Vec, lags: seq<Lag>)
    requires Stationary(s, lags) != []
    ensures LongEnough(s, lags)
    decreases |lags|
  {
    if lags != [] {
      NonEmptyIsLongEnough(Diff(s, lags[0]), lags[1..]);
      if |s| < lags[0] { StationaryOfEmpty(lags[1..]); }
    }
  }

  lemma {:induction false} StationaryOfEmpty(lags: seq<Lag>)
    ensures Stationary([], lags) == []
  {
    if lags != [] {
      assert Diff([], lags[0]) == [];
      StationaryOfEmpty(lags[1..]);
    }
  }

  /** Through any stack: differencing the integrated forecasts gives the stationary forecasts. */
  lemma {:induction false} DifferencingUndoesIntegrating(s: Vec, lags: seq<Lag>, f: Vec)
    requires LongEnough(s, lags) && Usable(StagesOf(s, lags))
    ensures Stationary(s + IntegrateAll(StagesOf(s, lags), f), lags) == Stationary(s, lags) + f
    decreases |lags|
  {
    if lags == [] {
    } else {
      var d, rest := Diff(s, lags[0]), StagesOf(Diff(s, lags[0]), lags[1..]);
      LongEnoughIsUsable(d, lags[1..]);
      assert StagesOf(s, lags)[1..] == rest;
      var inner := IntegrateAll(rest, f);
      DifferencingUndoesIntegrating(d, lags[1..], f);
      DiffOfIntegrated(s, inner, lags[0]);
    }
  }

  /** Through any stack: integrating the differenced continuation gives the continuation. */
  lemma {:induction false} IntegratingUndoesDifferencing(s: Vec, lags: seq<Lag>, c: Vec) returns (f: Vec)
    requires LongEnough(s, lags) && Usable(StagesOf(s, lags))
    ensures Stationary(s + c, lags) == Stationary(s, lags) + f
    ensures IntegrateAll(StagesOf(s, lags), f) == c
    decreases |lags|
  {
    hide Integrated, Diff, NewDiffs;
    if lags == [] {
      f := c;
    } else {
      var d, e := Diff(s, lags[0]), NewDiffs(s, c, lags[0]);
      LongEnoughIsUsable(d, lags[1..]);
      assert StagesOf(s, lags)[1..] == StagesOf(d, lags[1..]);
      f := IntegratingUndoesDifferencing(d, lags[1..], e);
      IntegratedOfDiff(s, c, lags[0]);
      DiffsSplit(s, c, lags[0]);
    }
  }

  // ---- the ARMA recursion

  datatype Arma = Arma(c: real, phi: Vec, theta: Vec, arLags: seq<Lag>, maLags: seq<Lag>)

  /** The coefficients match their lags, and the lags stay inside a series of length n. */
  ghost predicate Fits(m: Arma, n: nat) {
    && |m.phi| == |m.arLags| && |m.theta| == |m.maLags|
    && (forall i :: 0 <= i < |m.arLags| ==> m.arLags[i] <= n)
    && (forall j :: 0 <= j < |m.maLags| ==> m.maLags[j] <= n)
  }

  /** The sum of the first k coefficients times the values their lags before t. */
  function Lagged(coeffs: Vec, lags: seq<Lag>, series: Vec, t: nat, k: nat): real
    requires k <= |lags| && k <= |coeffs| && t <= |series|
    requires forall i :: 0 <= i < |lags| ==> lags[i] <= t
  {
    if k == 0 then 0.0
    else Lagged(coeffs, lags, series, t, k - 1) + coeffs[k - 1] * series[t - lags[k - 1]]
  }

  /** What the model expects at time t of a series with the given innovations. */
  function Expected(m: Arma, series: Vec, innovations: Vec, t: nat): real
    requires t <= |series| && t <= |innovations| && Fits(m, t)
  {
    m.c + Lagged(m.phi, m.arLags, series, t, |m.arLags|) + Lagged(m.theta, m.maLags, innovations, t, |m.maLags|)
  }

  /** f continues z as the model expects, with all future innovations zero. */
  ghost predicate Obeys(m: Arma, z: Vec, epsilon: Vec, f: Vec)
    requires |epsilon| == |z| && Fits(m, |z|)
  {
    forall h :: 0 <= h < |f| ==> f[h] == Expected(m, z + f, epsilon + Zeros(|f|), |z| + h)
  }

  lemma {:induction false} LaggedAgrees(coeffs: Vec, lags: seq<Lag>, a: Vec, b: Vec, t: nat, k: nat)
    requires k <= |lags| && k <= |coeffs| && t <= |a| && t <= |b| && a[..t] == b[..t]
    requires forall i :: 0 <= i < |lags| ==> lags[i] <= t
    ensures Lagged(coeffs, lags, a, t, k) == Lagged(coeffs, lags, b, t, k)
  {
    if k > 0 {
      LaggedAgrees(coeffs, lags, a, b, t, k - 1);
      assert lags[k - 1] in lags;
      assert a[t - lags[k - 1]] == a[..t][t - lags[k - 1]] == b[..t][t - lags[k - 1]] == b[t - lags[k - 1]];
    }
  }

  lemma ExpectedAgrees(m: Arma, a: Vec, b: Vec, u: Vec, v: Vec, t: nat)
    requires t <= |a| && t <= |b| && t <= |u| && t <= |v| && Fits(m, t)
    requires a[..t] == b[..t] && u[..t] == v[..t]
    ensures Expected(m, a, u, t) == Expected(m, b, v, t)
  {
    LaggedAgrees(m.phi, m.arLags, a, b, t, |m.arLags|);
    LaggedAgrees(m.theta, m.maLags, u, v, t, |m.maLags|);
  }

  lemma ObeysOneMore(m: Arma, z: Vec, epsilon: Vec, f: Vec, x: real)
    requires |epsilon| == |z| && Fits(m, |z|) && Obeys(m, z, epsilon, f)
    requires x == Expected(m, z + f, epsilon + Zeros(|f|), |z| + |f|)
    ensures Obeys(m, z, epsilon, f + [x])
  {
    var g := f + [x];
    forall h | 0 <= h < |g| ensures g[h] == Expected(m, z + g, epsilon + Zeros(|g|), |z| + h) {
      ExpectedAgrees(m, z + g, z + f, epsilon + Zeros(|g|), epsilon + Zeros(|f|), |z| + h);
    }
  }

  lemma ObeyingStep(m: Arma, z: Vec, epsilon: Vec, f: Vec, g: Vec, h: nat)
    requires |epsilon| == |z| && Fits(m, |z|) && |f| == |g| && h < |f| && f[..h] == g[..h]
    requires Obeys(m, z, epsilon, f) && Obeys(m, z, epsilon, g)
    ensures f[h] == g[h]
  {
    var t := |z| + h;
    assert (z + f)[..t] == z + f[..h] && (z + g)[..t] == z + g[..h];
    hide Expected;
    assert f[h] == Expected(m, z + f, epsilon + Zeros(|f|), t);
    assert g[h] == Expected(m, z + g, epsilon + Zeros(|g|), t);
    ExpectedAgrees(m, z + f, z + g, epsilon + Zeros(|f|), epsilon + Zeros(|f|), t);
  }

  /** The recursion has one solution: the future it describes is determined. */
  lemma ObeyingIsUnique(m: Arma, z: Vec, epsilon: Vec, f: Vec, g: Vec)
    requires |epsilon| == |z| && Fits(m, |z|) && |f| == |g|
    requires Obeys(m, z, epsilon, f) && Obeys(m, z, epsilon, g)
    ensures f == g
  {
    hide Obeys;
    for h := 0 to |f|
      invariant f[..h] == g[..h]
    {
      ObeyingStep(m, z, epsilon, f, g, h);
      assert f[..h + 1] == f[..h] + [f[h]] && g[..h + 1] == g[..h] + [g[h]];
    }
    assert f == f[..|f|] && g == g[..|f|];
  }

  /** `forecastStationary` */
  method ForecastStationary(m: Arma, z0: Vec, epsilon0: Vec, periods: nat) returns (forecasts: Vec)
    requires |epsilon0| == |z0| && Fits(m, |z0|)
    ensures |forecasts| == periods && Obeys(m, z0, epsilon0, forecasts)
  {
    var z, epsilon := z0, epsilon0;
    forecasts := [];
    for h := 0 to periods
      invariant |forecasts| == h && z == z0 + forecasts && epsilon == epsilon0 + Zeros(h)
      invariant Obeys(m, z0, epsilon0, forecasts)
    {
      var pred := Forecast(m, z, epsilon, |z0| + h);
      ObeysOneMore(m, z0, epsilon0, forecasts, pred);
      forecasts := forecasts + [pred];
      z := z + [pred];
      epsilon := epsilon + [0.0];
    }
  }

  /** One value: the accumulator loops over the autoregressive and moving-average lags. */
  method Forecast(m: Arma, z: Vec, epsilon: Vec, t: nat) returns (pred: real)
    requires t == |z| == |epsilon| && Fits(m, t)
    ensures pred == Expected(m, z, epsilon, t)
  {
    pred := m.c;
    for i := 0 to |m.arLags|
      invariant pred == m.c + Lagged(m.phi, m.arLags, z, t, i)
    {
      pred := pred + m.phi[i] * z[t - m.arLags[i]];
    }
    for j := 0 to |m.maLags|
      invariant pred == m.c + Lagged(m.phi, m.arLags, z, t, |m.arLags|) + Lagged(m.theta, m.maLags, epsilon, t, j)
    {
      pred := pred + m.theta[j] * epsilon[t - m.maLags[j]];
    }
  }

  // ---- the level path

  /** c is the continuation of the history whose differenced series goes on as the model expects. */
  ghost predicate ExpectedContinuation(values: Vec, lags: seq<Lag>, m: Arma, epsilon: Vec, c: Vec)
    requires |epsilon| == |Stationary(values, lags)| && Fits(m, |epsilon|)
  {
    var z := Stationary(values, lags);
    exists f: Vec :: |f| == |c| && Stationary(values + c, lags) == z + f && Obeys(m, z, epsilon, f)
  }

  /** What `predict` integrates is that continuation, and there is no other. */
  lemma LevelPathIsTheContinuation(values: Vec, lags: seq<Lag>, m: Arma, epsilon: Vec, f: Vec, c: Vec)
    requires Stationary(values, lags) != [] && |epsilon| == |Stationary(values, lags)| && Fits(m, |epsilon|)
    requires Obeys(m, Stationary(values, lags), epsilon, f) && |c| == |f|
    ensures Usable(StagesOf(values, lags))
    ensures ExpectedContinuation(values, lags, m, epsilon, c) <==> c == IntegrateAll(StagesOf(values, lags), f)
  {
    var z := Stationary(values, lags);
    NonEmptyIsLongEnough(values, lags);
    LongEnoughIsUsable(values, lags);
    DifferencingUndoesIntegrating(values, lags, f);
    if ExpectedContinuation(values, lags, m, epsilon, c) {
      var g: Vec :| |g| == |c| && Stationary(values + c, lags) == z + g && Obeys(m, z, epsilon, g);
      ObeyingIsUnique(m, z, epsilon, f, g);
      var e := IntegratingUndoesDifferencing(values, lags, c);
      assert e == (z + e)[|z|..] == (z + g)[|z|..] == g;
    }
  }

  datatype State =
    | Fallback(drift: real, stages: seq<Stage>)
    | Fitted(model: Arma, z: Vec, epsilon: Vec, stages: seq<Stage>)

  /** The state was fitted on these values with these differences. */
  ghost predicate Trained(state: State, values: Vec, lags: seq<Lag>) {
    && state.stages == StagesOf(values, lags)
    && (state.Fitted? ==>
         && state.z == Stationary(values, lags) != [] && |state.epsilon| == |state.z| && Fits(state.model, |state.z|))
  }

  lemma {:induction false} UsableIsLongEnough(s: Vec, lags: seq<Lag>)
    requires Usable(StagesOf(s, lags))
    ensures LongEnough(s, lags)
    decreases |lags|
  {
    if lags != [] {
      var stages := StagesOf(s, lags);
      assert stages[1..] == StagesOf(Diff(s, lags[0]), lags[1..]) && stages[0] in stages;
      assert forall st :: st in stages[1..] ==> st in stages;
      UsableIsLongEnough(Diff(s, lags[0]), lags[1..]);
    }
  }

  /** All the lags together. */
  function Span(lags: seq<Lag>): nat {
    if lags == [] then 0 else lags[0] + Span(lags[1..])
  }

  lemma {:induction false} LongEnoughExactly(s: Vec, lags: seq<Lag>)
    ensures LongEnough(s, lags) <==> |s| >= Span(lags)
    decreases |lags|
  {
    if lags != [] { LongEnoughExactly(Diff(s, lags[0]), lags[1..]); }
  }

  lemma UsableExactly(s: Vec, lags: seq<Lag>)
    ensures Usable(StagesOf(s, lags)) <==> |s| >= Span(lags)
  {
    hide Usable;
    LongEnoughExactly(s, lags);
    if LongEnough(s, lags) {
      LongEnoughIsUsable(s, lags);
    } else if Usable(StagesOf(s, lags)) {
      UsableIsLongEnough(s, lags);
    }
  }

  // ---- numbers as the program has them: reading before the start of a history gives NaN

  datatype Number = NaN | Num(value: real)

  function Plus(x: Number, y: Number): Number {
    if x.Num? && y.Num? then Num(x.value + y.value) else NaN
  }

  function Numbers(v: Vec): (n: seq<Number>)
    ensures |n| == |v| && forall i :: 0 <= i < |v| ==> n[i] == Num(v[i])
  {
    seq(|v|, i requires 0 <= i < |v| => Num(v[i]))
  }

  function At(s: seq<Number>, i: int): Number
    requires i < |s|
  {
    if i < 0 then NaN else s[i]
  }

  /** `integrate`, before the history is cut off. */
  function ExtendNumbers(prev: Vec, f: seq<Number>, lag: Lag): (r: seq<Number>)
    ensures |r| == |prev| + |f|
  {
    if f == [] then Numbers(prev)
    else
      var r := ExtendNumbers(prev, f[..|f| - 1], lag);
      r + [Plus(f[|f| - 1], At(r, |r| - lag))]
  }

  function IntegratedNumbers(prev: Vec, f: seq<Number>, lag: Lag): (c: seq<Number>)
    ensures |c| == |f|
  {
    ExtendNumbers(prev, f, lag)[|prev|..]
  }

  function IntegrateAllNumbers(stages: seq<Stage>, f: seq<Number>): (c: seq<Number>)
    ensures |c| == |f|
  {
    if stages == [] then f
    else IntegratedNumbers(stages[0].series, IntegrateAllNumbers(stages[1..], f), stages[0].lag)
  }

  lemma ExtendLast(prev: Vec, f: Vec, lag: Lag)
    requires lag <= |prev| && f != []
    ensures var r := Extend(prev, f[..|f| - 1], lag); Extend(prev, f, lag) == r + [f[|f| - 1] + r[|r| - lag]]
  {
    hide Continues;
  }

  lemma ExtendNumbersLast(prev: Vec, f: seq<Number>, lag: Lag)
    requires f != []
    ensures var r := ExtendNumbers(prev, f[..|f| - 1], lag);
      ExtendNumbers(prev, f, lag) == r + [Plus(f[|f| - 1], At(r, |r| - lag))]
  {}

  lemma ExtendNothing(prev: Vec, lag: Lag)
    requires lag <= |prev|
    ensures Extend(prev, [], lag) == prev && ExtendNumbers(prev, [], lag) == Numbers(prev) && Numbers([]) == []
  {
    hide Continues;
  }

  lemma NextNumber(r: Vec, x: real, lag: Lag)
    requires lag <= |r|
    ensures Numbers(r) + [Plus(Num(x), At(Numbers(r), |r| - lag))] == Numbers(r + [x + r[|r| - lag]])
  {}

  lemma {:induction false} ExtendStaysNumeric(prev: Vec, f: Vec, lag: Lag)
    requires lag <= |prev|
    ensures ExtendNumbers(prev, Numbers(f), lag) == Numbers(Extend(prev, f, lag))
  {
    hide Extend, ExtendNumbers, Numbers, Continues;
    if f == [] {
      ExtendNothing(prev, lag);
    } else {
      var before := f[..|f| - 1];
      assert Numbers(f)[..|f| - 1] == Numbers(before);
      ExtendStaysNumeric(prev, before, lag);
      ExtendLast(prev, f, lag);
      ExtendNumbersLast(prev, Numbers(f), lag);
      NextNumber(Extend(prev, before, lag), f[|f| - 1], lag);
    }
  }

  lemma IntegratedStaysNumeric(prev: Vec, f: Vec, lag: Lag)
    requires lag <= |prev|
    ensures IntegratedNumbers(prev, Numbers(f), lag) == Numbers(Integrated(prev, f, lag))
  {
    ExtendStaysNumeric(prev, f, lag);
    assert Numbers(Extend(prev, f, lag))[|prev|..] == Numbers(Extend(prev, f, lag)[|prev|..]);
  }

  /** The first new value is NaN where the history is shorter than the lag, and where the first
      difference is. */
  lemma {:induction false} FirstNewValue(prev: Vec, f: seq<Number>, lag: Lag)
    requires f != [] && (|prev| < lag || f[0] == NaN)
    ensures ExtendNumbers(prev, f, lag)[|prev|] == NaN
  {
    if |f| > 1 { FirstNewValue(prev, f[..|f| - 1], lag); }
  }

  /** With long enough histories all forecasts are the real ones; otherwise the first is NaN. */
  lemma {:induction false} IntegrateAllNumeric(stages: seq<Stage>, f: Vec)
    ensures Usable(stages) ==> IntegrateAllNumbers(stages, Numbers(f)) == Numbers(IntegrateAll(stages, f))
    ensures !Usable(stages) && f != [] ==> IntegrateAllNumbers(stages, Numbers(f))[0] == NaN
  {
    if stages != [] {
      var first, rest := stages[0], stages[1..];
      var inner := IntegrateAllNumbers(rest, Numbers(f));
      IntegrateAllNumeric(rest, f);
      assert Usable(stages) <==> first.lag <= |first.series| && Usable(rest);
      if Usable(stages) {
        IntegratedStaysNumeric(first.series, IntegrateAll(rest, f), first.lag);
      } else if f != [] {
        FirstNewValue(first.series, inner, first.lag);
      }
    }
  }

  method Integrate(prevSeries: Vec, diffForecasts: seq<Number>, lag: Lag) returns (c: seq<Number>)
    ensures c == IntegratedNumbers(prevSeries, diffForecasts, lag)
  {
    var result := Numbers(prevSeries);
    for h := 0 to |diffForecasts|
      invariant result == ExtendNumbers(prevSeries, diffForecasts[..h], lag)
    {
      assert diffForecasts[..h + 1][..h] == diffForecasts[..h];
      var idx := |result|;
      result := result + [Plus(diffForecasts[h], At(result, idx - lag))];
    }
    assert diffForecasts[..|diffForecasts|] == diffForecasts;
    return result[|prevSeries|..];
  }

  method IntegrateStages(stages: seq<Stage>, f: Vec) returns (level: seq<Number>)
    ensures level == IntegrateAllNumbers(stages, Numbers(f))
  {
    level := Numbers(f);
    for s := |stages| downto 0
      invariant level == IntegrateAllNumbers(stages[s..], Numbers(f))
    {
      assert stages[s..][1..] == stages[s + 1..];
      level := Integrate(stages[s].series, level, stages[s].lag);
    }
    assert stages[0..] == stages;
  }

  lemma NumbersInjective(u: Vec, v: Vec)
    ensures Numbers(u) == Numbers(v) <==> u == v
  {
    if Numbers(u) == Numbers(v) {
      forall i | 0 <= i < |u| ensures u[i] == v[i] { assert Numbers(u)[i] == Numbers(v)[i]; }
    }
  }

  lemma FittedPath(values: Vec, lags: seq<Lag>, m: Arma, epsilon: Vec, f: Vec, level: seq<Number>)
    requires Stationary(values, lags) != [] && |epsilon| == |Stationary(values, lags)| && Fits(m, |epsilon|)
    requires Obeys(m, Stationary(values, lags), epsilon, f)
    requires level == IntegrateAllNumbers(StagesOf(values, lags), Numbers(f))
    ensures |values| >= Span(lags)
    ensures forall c :: |c| == |f| ==> (ExpectedContinuation(values, lags, m, epsilon, c) <==> level == Numbers(c))
  {
    hide Obeys, ExpectedContinuation, Fits, Usable, Stationary, StagesOf;
    NonEmptyIsLongEnough(values, lags);
    LongEnoughExactly(values, lags);
    LongEnoughIsUsable(values, lags);
    IntegrateAllNumeric(StagesOf(values, lags), f);
    forall c | |c| == |f| ensures ExpectedContinuation(values, lags, m, epsilon, c) <==> level == Numbers(c) {
      LevelPathIsTheContinuation(values, lags, m, epsilon, f, c);
      NumbersInjective(c, IntegrateAll(StagesOf(values, lags), f));
    }
  }

  lemma FallbackPath(values: Vec, lags: seq<Lag>, f: Vec, level: seq<Number>)
    requires level == IntegrateAllNumbers(StagesOf(values, lags), Numbers(f))
    ensures |values| >= Span(lags) ==> forall c :: level == Numbers(c) ==>
      Stationary(values + c, lags) == Stationary(values, lags) + f
  {
    hide Usable, StagesOf, Stationary;
    if |values| >= Span(lags) {
      LongEnoughExactly(values, lags);
      LongEnoughIsUsable(values, lags);
      DifferencingUndoesIntegrating(values, lags, f);
      IntegrateAllNumeric(StagesOf(values, lags), f);
      forall c | level == Numbers(c) ensures c == IntegrateAll(StagesOf(values, lags), f) {
        NumbersInjective(c, IntegrateAll(StagesOf(values, lags), f));
      }
    }
  }

  /** `predict`, before rounding. The forecasts are numbers exactly where the history is at least as
      long as all its lags together, as that of a fitted state always is; otherwise the first is NaN. */
  method Predict(state: State, periods: nat, ghost values: Vec, ghost lags: seq<Lag>) returns (level: seq<Number>)
    requires Trained(state, values, lags)
    ensures |level| == periods
    ensures state.Fitted? ==> |values| >= Span(lags)
    ensures |values| >= Span(lags) ==> forall h :: 0 <= h < periods ==> level[h].Num?
    ensures |values| < Span(lags) && periods > 0 ==> level[0] == NaN
    ensures state.Fitted? ==> forall c :: |c| == periods ==>
      (ExpectedContinuation(values, lags, state.model, state.epsilon, c) <==> level == Numbers(c))
    ensures state.Fallback? && |values| >= Span(lags) ==> forall c :: level == Numbers(c) ==>
      Stationary(values + c, lags) == Stationary(values, lags) + seq(periods, _ => state.drift)
  {
    hide Obeys, ExpectedContinuation, Fits, Usable;
    var stationary;
    match state {
      case Fallback(drift, _) => stationary := seq(periods, _ => drift);
      case Fitted(model, z, epsilon, _) => stationary := ForecastStationary(model, z, epsilon, periods);
    }
    level := IntegrateStages(state.stages, stationary);
    IntegrateAllNumeric(state.stages, stationary);
    UsableExactly(values, lags);
    if state.Fitted? {
      FittedPath(values, lags, state.model, state.epsilon, stationary, level);
    } else {
      FallbackPath(values, lags, stationary, level);
    }
  }
}

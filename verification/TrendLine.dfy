/** The linear-regression trend line over exact reals, up to rounding and intervals. */
module TrendLine {
  import opened LinearAlgebra
  import RidgeRegression

  datatype Line = Line(slope: real, intercept: real)

  function At(line: Line, i: int): real { line.intercept + Times(line.slope, i as real) }

  /** What a line leaves over at each place of the history. */
  function Residuals(values: Vec, line: Line): (r: Vec)
    ensures |r| == |values| && forall i :: 0 <= i < |values| ==> r[i] == values[i] - At(line, i)
  {
    seq(|values|, i requires 0 <= i < |values| => values[i] - At(line, i))
  }

  function SquaredError(values: Vec, line: Line): real {
    Dot(Residuals(values, line), Residuals(values, line), |values|)
  }

  function Total(v: Vec, n: nat): real
    requires n <= |v|
  {
    if n == 0 then 0.0 else Total(v, n - 1) + v[n - 1]
  }

  function Mean(values: Vec): real
    requires values != []
  {
    Total(values, |values|) / |values| as real
  }

  function MidIndex(n: nat): real { (n as real - 1.0) / 2.0 }

  /** Places and values as distances from their means. */
  function Places(n: nat): (x: Vec)
    ensures |x| == n && forall i :: 0 <= i < n ==> x[i] == i as real - MidIndex(n)
  {
    seq(n, i => i as real - MidIndex(n))
  }

  function Deviations(values: Vec): (d: Vec)
    requires values != []
    ensures |d| == |values| && forall i :: 0 <= i < |values| ==> d[i] == values[i] - Mean(values)
  {
    seq(|values|, i requires 0 <= i < |values| => values[i] - Mean(values))
  }

  function Spread(n: nat): real { Dot(Places(n), Places(n), n) }

  function Products(values: Vec): real
    requires values != []
  {
    Dot(Places(|values|), Deviations(values), |values|)
  }

  function TotalError(values: Vec): real
    requires values != []
  {
    Dot(Deviations(values), Deviations(values), |values|)
  }

  // ---- sums of distances

  lemma {:induction false} ShiftedTotal(v: Vec, d: Vec, mean: real, n: nat)
    requires n <= |v| == |d| && forall i :: 0 <= i < n ==> d[i] == v[i] - mean
    ensures Total(d, n) == Total(v, n) - Times(n as real, mean)
  {
    hide Times;
    TimesUnit(mean);
    if n > 0 {
      ShiftedTotal(v, d, mean, n - 1);
      TimesPlus(mean, (n - 1) as real, 1.0);
      assert (n - 1) as real + 1.0 == n as real;
    }
  }

  lemma DeviationsCancel(values: Vec)
    requires values != []
    ensures Total(Deviations(values), |values|) == 0.0
  {
    hide Times, Total;
    QuotientTimes(Total(values, |values|), |values| as real);
    ShiftedTotal(values, Deviations(values), Mean(values), |values|);
  }

  lemma {:induction false} PlacesTotal(n: nat, k: nat)
    requires k <= n
    ensures 2.0 * Total(Places(n), k) == k as real * (k as real - n as real)
  {
    if k > 0 {
      PlacesTotal(n, k - 1);
      var j, m := (k - 1) as real, n as real;
      assert k as real == j + 1.0;
      assert j * (j - m) + 2.0 * j - (m - 1.0) == (j + 1.0) * (j + 1.0 - m);
    }
  }

  lemma PlacesCancel(n: nat)
    ensures Total(Places(n), n) == 0.0
  {
    hide Total;
    PlacesTotal(n, n);
    assert n as real * (n as real - n as real) == 0.0;
  }

  lemma SpreadPositive(n: nat)
    requires n >= 2
    ensures Spread(n) > 0.0
  {
    RidgeRegression.NormNonNegative(Places(n));
    assert Places(n)[0] != 0.0;
  }

  // ---- the squared error of any line, in closed form

  /** What a line adds to the spread of n values: e is its height above the mean value over the
      middle place, s its slope, and the rest are sums of products and of distances. */
  function Form(n: real, e: real, s: real, vv: real, xx: real, xv: real, v: real, x: real): real {
    vv + n * (e * e) + s * s * xx - 2.0 * s * xv - 2.0 * e * v + 2.0 * e * s * x
  }

  function Height(e: real, s: real, x: real): real { e + Times(s, x) }

  /** The sums a form is made of. */
  datatype Sums = Sums(n: real, vv: real, xx: real, xv: real, v: real, x: real)

  function FormOf(e: real, s: real, m: Sums): real { Form(m.n, e, s, m.vv, m.xx, m.xv, m.v, m.x) }

  function OneMore(m: Sums, v: real, x: real): Sums {
    Sums(m.n + 1.0, m.vv + v * v, m.xx + x * x, m.xv + x * v, m.v + v, m.x + x)
  }

  /** (v - (e + p))^2 with p for s x. */
  lemma SquareOfThree(v: real, e: real, p: real)
    ensures (v - (e + p)) * (v - (e + p)) == v * v + e * e + p * p - 2.0 * (p * v) - 2.0 * (e * v) + 2.0 * (e * p)
  {}

  /** What one more place adds to each term of a form. */
  lemma TermsGrow(n: real, e: real, s: real, xx: real, xv: real, tv: real, tx: real, v: real, x: real)
    ensures (n + 1.0) * (e * e) == n * (e * e) + e * e
    ensures s * s * (xx + x * x) == s * s * xx + (s * x) * (s * x)
    ensures 2.0 * s * (xv + x * v) == 2.0 * s * xv + 2.0 * ((s * x) * v)
    ensures 2.0 * e * (tv + v) == 2.0 * e * tv + 2.0 * (e * v)
    ensures 2.0 * e * s * (tx + x) == 2.0 * e * s * tx + 2.0 * (e * (s * x))
  {}

  lemma FormStep(e: real, s: real, m: Sums, v: real, x: real, r: real)
    requires r == v - Height(e, s, x)
    ensures FormOf(e, s, OneMore(m, v, x)) == FormOf(e, s, m) + r * r
  {
    TermsGrow(m.n, e, s, m.xx, m.xv, m.v, m.x, v, x);
    SquareOfThree(v, e, s * x);
  }

  function SumsOf(x: Vec, v: Vec, n: nat): Sums
    requires n <= |x| == |v|
  {
    Sums(n as real, Dot(v, v, n), Dot(x, x, n), Dot(x, v, n), Total(v, n), Total(x, n))
  }

  lemma FormOfNothing(x: Vec, v: Vec, e: real, s: real)
    requires |x| == |v|
    ensures FormOf(e, s, SumsOf(x, v, 0)) == 0.0
  {}

  lemma SumsStep(x: Vec, v: Vec, n: nat)
    requires n < |x| == |v|
    ensures SumsOf(x, v, n + 1) == OneMore(SumsOf(x, v, n), v[n], x[n])
  {}

  lemma {:induction false} SquaresExpand(x: Vec, v: Vec, r: Vec, e: real, s: real, n: nat)
    requires n <= |x| == |v| == |r| && forall i :: 0 <= i < n ==> r[i] == v[i] - Height(e, s, x[i])
    ensures Dot(r, r, n) == FormOf(e, s, SumsOf(x, v, n))
  {
    hide FormOf, SumsOf, OneMore, Height, Form;
    if n == 0 {
      FormOfNothing(x, v, e, s);
    } else {
      var k := n - 1;
      SquaresExpand(x, v, r, e, s, k);
      FormStep(e, s, SumsOf(x, v, k), v[k], x[k], r[k]);
      SumsStep(x, v, k);
    }
  }

  /** How far above the mean value a line passes over the middle place. */
  function Offset(values: Vec, line: Line): real
    requires values != []
  {
    line.intercept + Times(line.slope, MidIndex(|values|)) - Mean(values)
  }

  lemma ResidualCentred(values: Vec, line: Line, i: nat)
    requires i < |values|
    ensures Residuals(values, line)[i]
         == Deviations(values)[i] - Height(Offset(values, line), line.slope, Places(|values|)[i])
  {
    hide Mean, MidIndex, Times;
    TimesPlus(line.slope, Places(|values|)[i], MidIndex(|values|));
  }

  lemma ErrorOfLine(values: Vec, line: Line)
    requires values != []
    ensures SquaredError(values, line)
         == Form(|values| as real, Offset(values, line), line.slope,
                 TotalError(values), Spread(|values|), Products(values), 0.0, 0.0)
  {
    hide Form, Offset, Mean, MidIndex, Total, Dot, Height, At;
    var n := |values|;
    DeviationsCancel(values);
    PlacesCancel(n);
    forall i | 0 <= i < n
      ensures Residuals(values, line)[i]
           == Deviations(values)[i] - Height(Offset(values, line), line.slope, Places(n)[i])
    {
      ResidualCentred(values, line, i);
    }
    SquaresExpand(Places(n), Deviations(values), Residuals(values, line), Offset(values, line), line.slope, n);
  }

  /** The least-squares line: through both means, with the slope that balances the products. */
  ghost predicate Balances(values: Vec, line: Line)
    requires values != []
  {
    Offset(values, line) == 0.0 && Times(line.slope, Spread(|values|)) == Products(values)
  }

  /** What passing e above and d steeper costs. */
  function Excess(n: real, e: real, d: real, xx: real): real { Times(n, Times(e, e)) + Times(xx, Times(d, d)) }

  lemma FormGap(n: real, e: real, s: real, t: real, vv: real, xx: real, xv: real)
    requires Times(s, xx) == xv
    ensures Form(n, e, t, vv, xx, xv, 0.0, 0.0) == Form(n, 0.0, s, vv, xx, xv, 0.0, 0.0) + Excess(n, e, t - s, xx)
  {
    assert t * xv == t * s * xx && s * xv == s * s * xx;
    assert xx * ((t - s) * (t - s)) == t * t * xx - 2.0 * (t * s * xx) + s * s * xx;
  }

  /** By how much any other line is worse. */
  lemma Gap(values: Vec, best: Line, other: Line)
    requires values != [] && Balances(values, best)
    ensures SquaredError(values, other) == SquaredError(values, best)
      + Excess(|values| as real, Offset(values, other), other.slope - best.slope, Spread(|values|))
  {
    hide Form, Offset, Spread, Products, TotalError, SquaredError, Excess, Times;
    ErrorOfLine(values, best);
    ErrorOfLine(values, other);
    FormGap(|values| as real, Offset(values, other), best.slope, other.slope,
            TotalError(values), Spread(|values|), Products(values));
  }

  lemma ExcessSign(n: real, e: real, d: real, xx: real)
    requires n > 0.0 && xx > 0.0
    ensures Excess(n, e, d, xx) >= 0.0 && (Excess(n, e, d, xx) == 0.0 <==> e == 0.0 && d == 0.0)
  {
    hide Times;
    TimesSquare(e);
    TimesSquare(d);
    TimesSign(n, Times(e, e));
    TimesSign(xx, Times(d, d));
    TimesUnit(0.0);
    TimesUnit(n);
    TimesUnit(xx);
  }

  /** Nothing beats the balancing line, and nothing else matches it. */
  lemma BalancingIsBest(values: Vec, best: Line, other: Line)
    requires |values| >= 2 && Balances(values, best)
    ensures SquaredError(values, best) <= SquaredError(values, other)
    ensures SquaredError(values, best) == SquaredError(values, other) <==> best == other
  {
    hide Times, Excess, SquaredError, Spread, Mean, MidIndex;
    Gap(values, best, other);
    SpreadPositive(|values|);
    ExcessSign(|values| as real, Offset(values, other), other.slope - best.slope, Spread(|values|));
  }

  // ---- calculateRegression

  datatype Regression = Regression(line: Line, r2: real)

  method CalculateRegression(values: Vec) returns (result: Regression)
    ensures |values| < 2 ==> result == Regression(Line(0.0, if values == [] then 0.0 else values[0]), 0.0)
    ensures |values| >= 2 ==> Balances(values, result.line)
    ensures |values| >= 2 ==> result.r2 == RSquared(SquaredError(values, result.line), TotalError(values))
  {
    var n := |values|;
    if n < 2 { return Regression(Line(0.0, if values == [] then 0.0 else values[0]), 0.0); }
    var xMean := (n as real - 1.0) / 2.0;
    var yMean := Average(values);
    var numerator, denominator := Moments(values, xMean, yMean);
    SpreadPositive(n);
    var slope := if denominator != 0.0 then numerator / denominator else 0.0;
    QuotientTimes(numerator, denominator);
    var line := Line(slope, yMean - slope * xMean);
    assert Times(slope, xMean) == slope * xMean;
    hide Times, Spread, Products, SquaredError, TotalError, Mean;
    var ssTotal, ssResidual := Errors(values, yMean, line);
    result := Regression(line, if ssTotal != 0.0 then 1.0 - ssResidual / ssTotal else 0.0);
  }

  method Average(values: Vec) returns (mean: real)
    requires values != []
    ensures mean == Mean(values)
  {
    var sum := 0.0;
    for i := 0 to |values|
      invariant sum == Total(values, i)
    {
      sum := sum + values[i];
    }
    return sum / |values| as real;
  }

  method Moments(values: Vec, xMean: real, yMean: real) returns (numerator: real, denominator: real)
    requires values != [] && xMean == MidIndex(|values|) && yMean == Mean(values)
    ensures numerator == Products(values) && denominator == Spread(|values|)
  {
    hide Mean, MidIndex;
    ghost var x, v := Places(|values|), Deviations(values);
    numerator, denominator := 0.0, 0.0;
    for i := 0 to |values|
      invariant numerator == Dot(x, v, i) && denominator == Dot(x, x, i)
    {
      assert x[i] == i as real - xMean && v[i] == values[i] - yMean;
      numerator := numerator + (i as real - xMean) * (values[i] - yMean);
      denominator := denominator + (i as real - xMean) * (i as real - xMean);
    }
  }

  method Errors(values: Vec, yMean: real, line: Line) returns (ssTotal: real, ssResidual: real)
    requires values != [] && yMean == Mean(values)
    ensures ssTotal == TotalError(values) && ssResidual == SquaredError(values, line)
  {
    hide Mean, At;
    ghost var v, r := Deviations(values), Residuals(values, line);
    ssTotal, ssResidual := 0.0, 0.0;
    for i := 0 to |values|
      invariant ssTotal == Dot(v, v, i) && ssResidual == Dot(r, r, i)
    {
      var predicted := At(line, i);
      assert v[i] == values[i] - yMean && r[i] == values[i] - predicted;
      ssTotal := ssTotal + (values[i] - yMean) * (values[i] - yMean);
      ssResidual := ssResidual + (values[i] - predicted) * (values[i] - predicted);
    }
  }

  function RSquared(residual: real, total: real): real {
    if total != 0.0 then 1.0 - residual / total else 0.0
  }

  lemma ShareBounds(residual: real, total: real, gain: real)
    requires residual >= 0.0 && gain >= 0.0 && total == residual + gain
    ensures 0.0 <= RSquared(residual, total) <= 1.0
    ensures RSquared(residual, total) == 1.0 <==> residual == 0.0 && gain != 0.0
  {
    if total != 0.0 {
      QuotientSign(residual, total);
      QuotientSign(gain, total);
      assert residual / total + gain / total == (residual + gain) / total;
    }
  }

  lemma QuotientSign(a: real, b: real)
    requires a >= 0.0 && b > 0.0
    ensures a / b >= 0.0 && (a > 0.0 <==> a / b > 0.0)
  {
    if a > 0.0 { assert a / b * b == a; }
  }

  lemma ExactlyWhenNoResiduals(values: Vec, line: Line)
    ensures SquaredError(values, line) >= 0.0
    ensures SquaredError(values, line) == 0.0 <==> forall i :: 0 <= i < |values| ==> values[i] == At(line, i)
  {
    hide At;
    var r := Residuals(values, line);
    RidgeRegression.NormNonNegative(r);
    if forall i :: 0 <= i < |values| ==> values[i] == At(line, i) {
      DotZeroPrefix(r, r, |values|);
    }
    if SquaredError(values, line) == 0.0 {
      forall i | 0 <= i < |values| ensures values[i] == At(line, i) { assert r[i] == 0.0; }
    }
  }

  /** The error of the constant line is the total spread. */
  lemma LevelError(values: Vec)
    requires values != []
    ensures Offset(values, Line(0.0, Mean(values))) == 0.0
    ensures SquaredError(values, Line(0.0, Mean(values))) == TotalError(values)
  {
    hide Mean, Dot, MidIndex;
    var level := Line(0.0, Mean(values));
    forall i: nat | i < |values| ensures At(level, i) == Mean(values) {}
    assert Residuals(values, level) == Deviations(values);
  }

  /** So r2 is a share: between 0 and 1, and 1 exactly for a history on a line that is not level. */
  lemma RSquaredIsAShare(values: Vec, line: Line)
    requires |values| >= 2 && Balances(values, line)
    ensures var r2 := RSquared(SquaredError(values, line), TotalError(values));
      && 0.0 <= r2 <= 1.0
      && (r2 == 1.0 <==> (forall i :: 0 <= i < |values| ==> values[i] == At(line, i)) && line.slope != 0.0)
  {
    hide SquaredError, TotalError, RSquared, Spread, Excess, Mean, Offset, At;
    var n, level := |values|, Line(0.0, Mean(values));
    ExactlyWhenNoResiduals(values, line);
    Gap(values, line, level);
    LevelError(values);
    SpreadPositive(n);
    var gain := Excess(n as real, 0.0, 0.0 - line.slope, Spread(n));
    ExcessSign(n as real, 0.0, 0.0 - line.slope, Spread(n));
    ShareBounds(SquaredError(values, line), TotalError(values), gain);
  }

  // ---- predict

  /** The line extrapolated from the last index, before rounding. */
  method Predict(line: Line, lastIndex: int, periods: nat) returns (forecasts: Vec)
    ensures |forecasts| == periods && forall k :: 0 <= k < periods ==> forecasts[k] == At(line, lastIndex + k + 1)
  {
    forecasts := [];
    for i := 1 to periods + 1
      invariant |forecasts| == i - 1 && forall k :: 0 <= k < i - 1 ==> forecasts[k] == At(line, lastIndex + k + 1)
    {
      var forecastIndex := lastIndex + i;
      forecasts := forecasts + [line.intercept + line.slope * forecastIndex as real];
    }
  }

  /** An exactly linear history determines its line, and so is extrapolated exactly. */
  lemma LinearIsRecovered(values: Vec, line: Line, fitted: Line)
    requires |values| >= 2 && Balances(values, fitted)
    requires forall i :: 0 <= i < |values| ==> values[i] == At(line, i)
    ensures fitted == line
  {
    hide SquaredError, At;
    ExactlyWhenNoResiduals(values, line);
    ExactlyWhenNoResiduals(values, fitted);
    BalancingIsBest(values, fitted, line);
  }
}

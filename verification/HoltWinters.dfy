/** Holt-Winters smoothing over exact reals, up to rounding and clamping. A division by zero, which
    the program turns into a value that is not a number, is None here. */
module HoltWinters {
  import opened LinearAlgebra
  import opened Wrappers

  datatype Params = Params(
    period: nat, alpha: real, beta: real, gamma: real, damped: bool, phi: real, multiplicative: bool)

  datatype Components = Components(levels: Vec, trends: Vec, seasonals: Vec)

  function Sum(v: Vec): real { if v == [] then 0.0 else Sum(v[..|v| - 1]) + v[|v| - 1] }

  function Slice(v: Vec, lo: nat, hi: nat): Vec
    requires lo <= hi
  {
    v[if lo < |v| then lo else |v|..if hi < |v| then hi else |v|]
  }

  /** The mean of the season that starts at a place, over the whole period even when cut short. */
  function SeasonMean(values: Vec, start: nat, period: nat): real
    requires period > 0
  {
    Sum(Slice(values, start, start + period)) / period as real
  }

  predicate Sized(p: Params, values: Vec) { 0 < p.period <= |values| }

  // ---- one smoothing step

  datatype Point = Point(level: real, trend: real, seasonal: real)

  function Blend(w: real, x: real, y: real): real { w * x + (1.0 - w) * y }

  function Damp(p: Params, trend: real): real { if p.damped then trend * p.phi else trend }

  function Factor(p: Params): real { if p.damped then p.phi else 1.0 }

  function Deseasoned(p: Params, y: real, part: real): real
    requires p.multiplicative ==> part != 0.0
  {
    if p.multiplicative then y / part else y - part
  }

  function Next(p: Params, y: real, level: real, trend: real, seasonal: real): Option<Point> {
    if p.multiplicative && seasonal == 0.0 then None
    else
      var newLevel := Blend(p.alpha, Deseasoned(p, y, seasonal), level + trend);
      var newTrend := Blend(p.beta, newLevel - level, trend);
      if p.multiplicative && newLevel == 0.0 then None
      else Some(Point(newLevel, Damp(p, newTrend),
                      Blend(p.gamma, Deseasoned(p, y, newLevel), seasonal)))
  }

  /** `initializeComponents` */
  function Initial(p: Params, values: Vec): Option<Components>
    requires Sized(p, values)
  {
    var level := SeasonMean(values, 0, p.period);
    var trend := (SeasonMean(values, p.period, p.period) - level) / p.period as real;
    if p.multiplicative && level == 0.0 then None
    else Some(Components([level], [trend], seq(p.period, i requires 0 <= i < p.period =>
           if p.multiplicative then values[i] / level else values[i] - level)))
  }

  /** The components after the first t values. */
  function Run(p: Params, values: Vec, t: nat): (r: Option<Components>)
    requires Sized(p, values) && p.period <= t <= |values|
    ensures r.Some? ==>
      |r.value.levels| == |r.value.trends| == t - p.period + 1 && |r.value.seasonals| == t
  {
    if t == p.period then Initial(p, values)
    else match Run(p, values, t - 1)
      case None => None
      case Some(c) =>
        var k := t - 1 - p.period;
        match Next(p, values[t - 1], c.levels[k], c.trends[k], c.seasonals[k])
        case None => None
        case Some(x) => Some(Components(c.levels + [x.level], c.trends + [x.trend], c.seasonals + [x.seasonal]))
  }

  method InitializeComponents(p: Params, values: Vec) returns (c: Option<Components>)
    requires Sized(p, values)
    ensures c == Initial(p, values)
  {
    var first := Accumulate(Slice(values, 0, p.period));
    var level := first / p.period as real;
    var second := Accumulate(Slice(values, p.period, 2 * p.period));
    var trend := (second / p.period as real - level) / p.period as real;
    var seasonal: Vec := [];
    if p.multiplicative && level == 0.0 { return None; }
    for i := 0 to p.period
      invariant |seasonal| == i
      invariant forall k :: 0 <= k < i ==>
        seasonal[k] == if p.multiplicative then values[k] / level else values[k] - level
    {
      if p.multiplicative {
        seasonal := seasonal + [values[i] / level];
      } else {
        seasonal := seasonal + [values[i] - level];
      }
    }
    assert Initial(p, values).value.seasonals == seasonal;
    return Some(Components([level], [trend], seasonal));
  }

  method Accumulate(v: Vec) returns (sum: real)
    ensures sum == Sum(v)
  {
    sum := 0.0;
    for i := 0 to |v|
      invariant sum == Sum(v[..i])
    {
      assert v[..i + 1][..i] == v[..i];
      sum := sum + v[i];
    }
    assert v[..|v|] == v;
  }

  /** The body of the smoothing loop, in both forms. */
  method Smooth(p: Params, y: real, prevLevel: real, prevTrend: real, prevSeasonal: real) returns (x: Option<Point>)
    ensures x == Next(p, y, prevLevel, prevTrend, prevSeasonal)
  {
    hide Blend;
    var newLevel, newTrend, newSeasonal;
    if p.multiplicative {
      if prevSeasonal == 0.0 { return None; }
      newLevel := Blend(p.alpha, y / prevSeasonal, prevLevel + prevTrend);
      if newLevel == 0.0 { return None; }
      newTrend := Blend(p.beta, newLevel - prevLevel, prevTrend);
      newSeasonal := Blend(p.gamma, y / newLevel, prevSeasonal);
    } else {
      newLevel := Blend(p.alpha, y - prevSeasonal, prevLevel + prevTrend);
      newTrend := Blend(p.beta, newLevel - prevLevel, prevTrend);
      newSeasonal := Blend(p.gamma, y - newLevel, prevSeasonal);
    }
    assert newTrend == Blend(p.beta, newLevel - prevLevel, prevTrend);
    ghost var undamped := newTrend;
    if p.damped { newTrend := newTrend * p.phi; }
    assert newTrend == Damp(p, undamped);
    return Some(Point(newLevel, newTrend, newSeasonal));
  }

  /** `fit`, up to the fitted values. */
  method Fit(p: Params, values: Vec) returns (c: Option<Components>)
    requires Sized(p, values)
    ensures c == Run(p, values, |values|)
    ensures forall c' :: c == Some(c') <==> Smoothed(p, values, |values|, c')
  {
    forall c' ensures Run(p, values, |values|) == Some(c') <==> Smoothed(p, values, |values|, c') {
      RunIsSmoothed(p, values, |values|, c');
    }
    hide Smoothed;
    c := InitializeComponents(p, values);
    hide Next, Initial;
    for t := p.period to |values|
      invariant c == Run(p, values, t)
    {
      if c.None? {
        NoneStays(p, values, t, |values|);
        return;
      }
      var levels, trends, seasonals := c.value.levels, c.value.trends, c.value.seasonals;
      var x := Smooth(p, values[t], levels[|levels| - 1], trends[|trends| - 1], seasonals[t - p.period]);
      c := match x
        case None => None
        case Some(x) => Some(Components(levels + [x.level], trends + [x.trend], seasonals + [x.seasonal]));
    }
  }

  lemma {:induction false} NoneStays(p: Params, values: Vec, t: nat, u: nat)
    requires Sized(p, values) && p.period <= t <= u <= |values| && Run(p, values, t).None?
    ensures Run(p, values, u).None?
  {
    if t < u { NoneStays(p, values, t, u - 1); }
  }

  // ---- fitted values and forecasts

  function Combine(p: Params, level: real, seasonal: real): real {
    if p.multiplicative then level * seasonal else level + seasonal
  }

  lemma CombineIs(p: Params, level: real, seasonal: real)
    ensures p.multiplicative ==> Combine(p, level, seasonal) == level * seasonal
    ensures !p.multiplicative ==> Combine(p, level, seasonal) == level + seasonal
  {}

  /** The one-step forecast for the value i places after the first season. */
  function FittedAt(p: Params, c: Components, i: nat): real
    requires i < |c.levels| && i < |c.trends| && i < |c.seasonals|
  {
    Combine(p, c.levels[i] + c.trends[i], c.seasonals[i])
  }

  method CalculateFittedValues(p: Params, c: Components) returns (fitted: Vec)
    requires |c.levels| == |c.trends| > 0 && |c.levels| <= |c.seasonals| + 1
    ensures |fitted| == |c.levels| - 1 && forall i :: 0 <= i < |fitted| ==> fitted[i] == FittedAt(p, c, i)
  {
    fitted := [];
    for i := 0 to |c.levels| - 1
      invariant |fitted| == i && forall k :: 0 <= k < i ==> fitted[k] == FittedAt(p, c, k)
    {
      var levelTrend := c.levels[i] + c.trends[i];
      if p.multiplicative {
        fitted := fitted + [levelTrend * c.seasonals[i]];
      } else {
        fitted := fitted + [levelTrend + c.seasonals[i]];
      }
    }
  }

  function Pow(x: real, k: nat): real { if k == 0 then 1.0 else Times(x, Pow(x, k - 1)) }

  /** The trend's contribution k steps ahead. */
  function TrendAhead(p: Params, trend: real, k: nat): real {
    if !p.damped then Times(trend, k as real)
    else if k == 0 then 0.0 else TrendAhead(p, trend, k - 1) + Times(trend, Pow(p.phi, k))
  }

  /** Which of the last season's factors serves k steps ahead. */
  function SeasonalIndex(k: nat, period: nat): (i: nat)
    requires period > 0
    ensures i < period
  {
    k % period
  }

  function ForecastAt(p: Params, c: Components, k: nat): real
    requires k >= 1 && 0 < p.period <= |c.seasonals| && |c.levels| > 0 && |c.trends| > 0
  {
    Combine(p, c.levels[|c.levels| - 1] + TrendAhead(p, c.trends[|c.trends| - 1], k),
            c.seasonals[|c.seasonals| - p.period + SeasonalIndex(k - 1, p.period)])
  }

  /** `predict`, before rounding and the clamp at zero. */
  method Predict(p: Params, c: Components, periods: nat) returns (forecasts: Vec)
    requires 0 < p.period <= |c.seasonals| && |c.levels| > 0 && |c.trends| > 0
    ensures |forecasts| == periods && forall k :: 1 <= k <= periods ==> forecasts[k - 1] == ForecastAt(p, c, k)
    ensures exists ahead: Vec :: Continues(p, c, ahead, forecasts)
  {
    ForecastsContinue(p, c, seq(periods, k requires 0 <= k < periods => ForecastAt(p, c, k + 1)));
    hide Continues;
    TimesUnit(c.trends[|c.trends| - 1]);
    hide SeasonalIndex, Pow, Times, Combine;
    var finalLevel, finalTrend := c.levels[|c.levels| - 1], c.trends[|c.trends| - 1];
    var seasonalFactors := c.seasonals[|c.seasonals| - p.period..];
    var cumulativeTrend := 0.0;
    forecasts := [];
    for k := 1 to periods + 1
      invariant |forecasts| == k - 1 && forall j :: 1 <= j < k ==> forecasts[j - 1] == ForecastAt(p, c, j)
      invariant cumulativeTrend == TrendAhead(p, finalTrend, k - 1)
    {
      var seasonalFactor := seasonalFactors[SeasonalIndex(k - 1, p.period)];
      if p.damped {
        cumulativeTrend := cumulativeTrend + Times(finalTrend, Pow(p.phi, k));
      } else {
        cumulativeTrend := Times(finalTrend, k as real);
      }
      var forecastValue;
      if p.multiplicative {
        forecastValue := (finalLevel + cumulativeTrend) * seasonalFactor;
      } else {
        forecastValue := finalLevel + cumulativeTrend + seasonalFactor;
      }
      CombineIs(p, finalLevel + cumulativeTrend, seasonalFactor);
      forecasts := forecasts + [forecastValue];
    }
    assert forecasts == seq(periods, k requires 0 <= k < periods => ForecastAt(p, c, k + 1));
  }

  /** The levels ahead go on from the last one: each step gains what the step before gained, the first
      one the trend, damped once more each time. */
  predicate LevelsGoOn(p: Params, level: real, trend: real, ahead: Vec) {
    && ahead != [] && ahead[0] == level
    && forall k :: 1 <= k < |ahead| ==>
         Gains(p, ahead[k - 1], ahead[k], if k == 1 then trend else ahead[k - 1] - ahead[k - 2])
  }

  predicate Gains(p: Params, before: real, after: real, gain: real) {
    after == before + (if p.damped then p.phi else 1.0) * gain
  }

  /** The level ahead with the season's part is the forecast. */
  predicate Continues(p: Params, c: Components, ahead: Vec, forecasts: Vec)
    requires 0 < p.period <= |c.seasonals| && |c.levels| > 0 && |c.trends| > 0
  {
    && |ahead| == |forecasts| + 1
    && LevelsGoOn(p, c.levels[|c.levels| - 1], c.trends[|c.trends| - 1], ahead)
    && forall k :: 0 <= k < |forecasts| ==>
         var part := c.seasonals[|c.seasonals| - p.period + k % p.period];
         forecasts[k] == if p.multiplicative then ahead[k + 1] * part else ahead[k + 1] + part
  }

  lemma TrendAheadGains(p: Params, level: real, trend: real, k: nat)
    requires k >= 1
    ensures TrendAhead(p, trend, 0) == 0.0
    ensures Gains(p, level + TrendAhead(p, trend, k - 1), level + TrendAhead(p, trend, k),
      if k == 1 then trend else TrendAhead(p, trend, k - 1) - TrendAhead(p, trend, k - 2))
  {
    TimesUnit(trend);
    if p.damped {
      assert Pow(p.phi, 1) == p.phi * Pow(p.phi, 0) == p.phi;
      if k > 1 { TimesSwap(p.phi, trend, Pow(p.phi, k - 1)); }
    }
  }

  function LevelsAhead(p: Params, level: real, trend: real, n: nat): Vec {
    seq(n + 1, k requires 0 <= k <= n => level + TrendAhead(p, trend, k))
  }

  lemma LevelsAheadGoOn(p: Params, level: real, trend: real, n: nat)
    ensures LevelsGoOn(p, level, trend, LevelsAhead(p, level, trend, n))
  {
    hide TrendAhead, Gains;
    var ahead := LevelsAhead(p, level, trend, n);
    TrendAheadGains(p, level, trend, 1);
    forall k | 1 <= k < |ahead|
      ensures Gains(p, ahead[k - 1], ahead[k], if k == 1 then trend else ahead[k - 1] - ahead[k - 2])
    {
      TrendAheadGains(p, level, trend, k);
    }
  }

  lemma ForecastsContinue(p: Params, c: Components, forecasts: Vec)
    requires 0 < p.period <= |c.seasonals| && |c.levels| > 0 && |c.trends| > 0
    requires forall k :: 0 <= k < |forecasts| ==> forecasts[k] == ForecastAt(p, c, k + 1)
    ensures exists ahead: Vec :: Continues(p, c, ahead, forecasts)
  {
    hide TrendAhead, LevelsGoOn;
    var ahead := LevelsAhead(p, c.levels[|c.levels| - 1], c.trends[|c.trends| - 1], |forecasts|);
    LevelsAheadGoOn(p, c.levels[|c.levels| - 1], c.trends[|c.trends| - 1], |forecasts|);
    assert Continues(p, c, ahead, forecasts);
  }

  // ---- what smoothing does, by its errors

  /** The error y - forecast corrects the components: a share alpha of it goes into the level, a share
      beta of that into the trend, before damping, and a share gamma of the rest into the seasonal
      part. In the multiplicative form it is taken per unit of the factor divided by. */
  predicate Corrects(p: Params, y: real, level: real, trend: real, part: real, x: Point) {
    if p.multiplicative then
      var e := y - (level + trend) * part;
      part != 0.0 && x.level != 0.0 && CorrectsBy(p, level, trend, part, e / part, e / x.level, x)
    else
      var e := y - (level + trend + part);
      CorrectsBy(p, level, trend, part, e, e, x)
  }

  predicate CorrectsBy(p: Params, level: real, trend: real, part: real, e: real, e': real, x: Point) {
    && x.level == level + trend + p.alpha * e
    && x.trend == (trend + p.alpha * p.beta * e) * (if p.damped then p.phi else 1.0)
    && x.seasonal == part + p.gamma * (1.0 - p.alpha) * e'
  }

  ghost predicate CorrectedAt(p: Params, values: Vec, c: Components, i: nat)
    requires p.period + i < |values| && i + 1 < |c.levels| && i + 1 < |c.trends| && p.period + i < |c.seasonals|
  {
    Corrects(p, values[p.period + i], c.levels[i], c.trends[i], c.seasonals[i],
             Point(c.levels[i + 1], c.trends[i + 1], c.seasonals[p.period + i]))
  }

  /** x is the mean of m values that sum to s. */
  predicate IsMean(x: real, m: real, s: real) { x * m == s }

  /** The level is the mean of the first season, the trend a period's share of what the second
      season's mean is beyond it, and a seasonal part is what its value is beyond the level, or what
      multiple of it. */
  ghost predicate StartsFromSeasons(p: Params, values: Vec, c: Components)
    requires Sized(p, values) && |c.levels| > 0 && |c.trends| > 0 && |c.seasonals| >= p.period
  {
    var m := p.period as real;
    && IsMean(c.levels[0], m, Sum(Slice(values, 0, p.period)))
    && IsMean(c.levels[0] + c.trends[0] * m, m, Sum(Slice(values, p.period, 2 * p.period)))
    && (p.multiplicative ==> c.levels[0] != 0.0)
    && forall i :: 0 <= i < p.period ==>
         values[i] == if p.multiplicative then c.seasonals[i] * c.levels[0] else c.seasonals[i] + c.levels[0]
  }

  /** The components that the first t values give. */
  ghost predicate Smoothed(p: Params, values: Vec, t: nat, c: Components)
    requires Sized(p, values) && p.period <= t <= |values|
  {
    && |c.levels| == |c.trends| == t - p.period + 1 && |c.seasonals| == t
    && StartsFromSeasons(p, values, c)
    && forall i :: 0 <= i < t - p.period ==> CorrectedAt(p, values, c, i)
  }

  lemma BlendCorrects(w: real, x: real, y: real)
    ensures Blend(w, x, y) == y + w * (x - y)
  {
    assert w * (x - y) == w * x - w * y && (1.0 - w) * y == y - w * y;
  }

  lemma DampIsFactor(p: Params, trend: real)
    ensures Damp(p, trend) == trend * (if p.damped then p.phi else 1.0)
  {}

  lemma BlendedLevel(a: real, x: real, before: real, e: real)
    requires e == x - before
    ensures Blend(a, x, before) == before + a * e
  {
    BlendCorrects(a, x, before);
  }

  lemma BlendedTrend(a: real, b: real, gain: real, trend: real, e: real)
    requires gain - trend == a * e
    ensures Blend(b, gain, trend) == trend + a * b * e
  {
    BlendCorrects(b, gain, trend);
    assert b * (gain - trend) == b * (a * e);
    assert b * (a * e) == a * b * e;
  }

  lemma BlendedPart(a: real, g: real, x: real, part: real, e: real)
    requires x - part == (1.0 - a) * e
    ensures Blend(g, x, part) == part + g * (1.0 - a) * e
  {
    BlendCorrects(g, x, part);
    assert g * (x - part) == g * ((1.0 - a) * e);
    assert g * ((1.0 - a) * e) == g * (1.0 - a) * e;
  }

  lemma RestIsShare(a: real, e: real)
    ensures e - a * e == (1.0 - a) * e
  {}

  /** The three blends of a step whose value, freed of its seasonal part, exceeds the forecast level by
      e, and whose value, freed of the new level, exceeds the seasonal part by the rest of e'. */
  lemma BlendsCorrect(p: Params, level: real, trend: real, part: real, free: real, share: real, e: real, e': real)
    requires e == free - (level + trend) && share - part == (1.0 - p.alpha) * e'
    ensures var newLevel := Blend(p.alpha, free, level + trend);
      CorrectsBy(p, level, trend, part, e, e',
        Point(newLevel, Damp(p, Blend(p.beta, newLevel - level, trend)), Blend(p.gamma, share, part)))
  {
    BlendedLevel(p.alpha, free, level + trend, e);
    var newLevel := Blend(p.alpha, free, level + trend);
    hide Blend, Damp;
    assert newLevel - level - trend == p.alpha * e;
    BlendedTrend(p.alpha, p.beta, newLevel - level, trend, e);
    BlendedPart(p.alpha, p.gamma, share, part, e');
    DampIsFactor(p, Blend(p.beta, newLevel - level, trend));
  }

  /** An additive step is defined, and corrects by the error. */
  lemma AdditiveStep(p: Params, y: real, level: real, trend: real, part: real)
    requires !p.multiplicative
    ensures Next(p, y, level, trend, part).Some?
    ensures Corrects(p, y, level, trend, part, Next(p, y, level, trend, part).value)
  {
    var e := y - (level + trend + part);
    var newLevel := Blend(p.alpha, y - part, level + trend);
    BlendedLevel(p.alpha, y - part, level + trend, e);
    hide Blend, Damp, CorrectsBy;
    RestIsShare(p.alpha, e);
    assert y - newLevel - part == (1.0 - p.alpha) * e;
    BlendsCorrect(p, level, trend, part, y - part, y - newLevel, e, e);
  }

  lemma QuotientLess(y: real, d: real, x: real)
    requires d != 0.0
    ensures y / d - x == (y - x * d) / d
  {
    assert y / d * d == y;
    assert (y / d - x) * d == y - x * d;
  }

  lemma QuotientShare(a: real, e: real, d: real)
    requires d != 0.0
    ensures a * e / d == a * (e / d)
  {}

  /** What the new level leaves of the error. */
  lemma RestOfError(a: real, e: real, part: real, before: real, y: real, newLevel: real)
    requires part != 0.0 && e == y - before * part && newLevel == before + a * (e / part)
    ensures y - part * newLevel == (1.0 - a) * e
  {
    var q := e / part;
    assert q * part == e;
    assert part * (before + a * q) == before * part + a * (q * part);
    RestIsShare(a, e);
  }

  lemma MultiplicativeNext(p: Params, y: real, level: real, trend: real, part: real, free: real, newLevel: real)
    requires p.multiplicative && part != 0.0 && free == y / part && newLevel == Blend(p.alpha, free, level + trend)
    ensures Next(p, y, level, trend, part) ==
      if newLevel == 0.0 then None
      else Some(Point(newLevel, Damp(p, Blend(p.beta, newLevel - level, trend)), Blend(p.gamma, y / newLevel, part)))
  {
    hide Blend, Damp;
  }

  /** A multiplicative step is defined where it can divide, and corrects by the error. */
  lemma MultiplicativeStep(p: Params, y: real, level: real, trend: real, part: real)
    requires p.multiplicative && part != 0.0
    ensures var e := y - (level + trend) * part;
      Next(p, y, level, trend, part).None? <==> level + trend + p.alpha * (e / part) == 0.0
    ensures Next(p, y, level, trend, part).Some? ==>
      Corrects(p, y, level, trend, part, Next(p, y, level, trend, part).value)
  {
    hide Blend, Damp, CorrectsBy, Next;
    var e, before, free := y - (level + trend) * part, level + trend, y / part;
    var newLevel := Blend(p.alpha, free, before);
    MultiplicativeNext(p, y, level, trend, part, free, newLevel);
    QuotientLess(y, part, before);
    BlendedLevel(p.alpha, free, before, e / part);
    if newLevel != 0.0 { RestByLevel(p, y, level, trend, part, free, newLevel, e); }
  }

  lemma RestByLevel(p: Params, y: real, level: real, trend: real, part: real, free: real, newLevel: real, e: real)
    requires part != 0.0 && newLevel != 0.0 && newLevel == Blend(p.alpha, free, level + trend)
    requires e == y - (level + trend) * part && e / part == free - (level + trend)
    requires newLevel == level + trend + p.alpha * (e / part)
    ensures CorrectsBy(p, level, trend, part, e / part, e / newLevel,
      Point(newLevel, Damp(p, Blend(p.beta, newLevel - level, trend)), Blend(p.gamma, y / newLevel, part)))
  {
    hide Blend, Damp, CorrectsBy;
    RestOfError(p.alpha, e, part, level + trend, y, newLevel);
    QuotientLess(y, newLevel, part);
    QuotientShare(1.0 - p.alpha, e, newLevel);
    BlendsCorrect(p, level, trend, part, free, y / newLevel, e / part, e / newLevel);
  }

  /** A step is defined and leads to x exactly when x is the corrected point. */
  lemma StepCorrects(p: Params, y: real, level: real, trend: real, part: real, x: Point)
    ensures Next(p, y, level, trend, part) == Some(x) <==> Corrects(p, y, level, trend, part, x)
  {
    if !p.multiplicative {
      AdditiveStep(p, y, level, trend, part);
    } else if part != 0.0 {
      MultiplicativeStep(p, y, level, trend, part);
    }
    hide Next, Corrects;
    if Next(p, y, level, trend, part).Some? {
      var z := Next(p, y, level, trend, part).value;
      if Corrects(p, y, level, trend, part, x) { CorrectedOnce(p, y, level, trend, part, z, x); }
    } else if Corrects(p, y, level, trend, part, x) {
      CorrectedDivides(p, y, level, trend, part, x);
    }
  }

  lemma CorrectedDivides(p: Params, y: real, level: real, trend: real, part: real, x: Point)
    requires p.multiplicative && Corrects(p, y, level, trend, part, x)
    ensures part != 0.0 && level + trend + p.alpha * ((y - (level + trend) * part) / part) != 0.0
  {}

  lemma CorrectedOnce(p: Params, y: real, level: real, trend: real, part: real, x: Point, z: Point)
    requires Corrects(p, y, level, trend, part, x) && Corrects(p, y, level, trend, part, z)
    ensures x == z
  {
    hide Factor;
  }

  lemma QuotientIs(a: real, b: real, x: real)
    requires b != 0.0
    ensures x == a / b <==> x * b == a
  {
    assert a / b * b == a;
    if x * b == a { assert (x - a / b) * b == 0.0; }
  }

  lemma MeanIs(x: real, m: real, s: real)
    requires m != 0.0
    ensures IsMean(x, m, s) <==> x == s / m
  {
    QuotientIs(s, m, x);
  }

  lemma ShareIs(x: real, m: real, gain: real)
    requires m != 0.0
    ensures x == gain / m <==> x * m == gain
  {
    QuotientIs(gain, m, x);
  }

  lemma SeasonMeanIs(values: Vec, start: nat, period: nat, x: real)
    requires period > 0
    ensures IsMean(x, period as real, Sum(Slice(values, start, start + period)))
      <==> x == SeasonMean(values, start, period)
  {
    hide Sum, Slice, IsMean;
    MeanIs(x, period as real, Sum(Slice(values, start, start + period)));
  }

  /** The first level and trend, freed of their divisions. */
  lemma MeansFreed(values: Vec, period: nat, level: real, trend: real, first: real, second: real)
    requires period > 0 && first == SeasonMean(values, 0, period) && second == SeasonMean(values, period, period)
    ensures var m := period as real;
      level == first && trend * m == second - first <==>
        && IsMean(level, m, Sum(Slice(values, 0, period)))
        && IsMean(level + trend * m, m, Sum(Slice(values, period, 2 * period)))
  {
    hide SeasonMean, Sum, Slice, IsMean;
    var m := period as real;
    var y := level + trend * m;
    SeasonMeanIs(values, 0, period, level);
    SeasonMeanIs(values, period, period, y);
    assert Slice(values, period, period + period) == Slice(values, period, 2 * period);
    assert IsMean(level, m, Sum(Slice(values, 0, period))) <==> level == first;
    assert IsMean(y, m, Sum(Slice(values, period, 2 * period))) <==> y == second;
  }

  ghost predicate PartsFrom(p: Params, values: Vec, level: real, parts: Vec)
    requires Sized(p, values) && |parts| >= p.period && (p.multiplicative ==> level != 0.0)
  {
    forall i :: 0 <= i < p.period ==> parts[i] == if p.multiplicative then values[i] / level else values[i] - level
  }

  lemma PartsFreed(p: Params, values: Vec, level: real, parts: Vec)
    requires Sized(p, values) && |parts| >= p.period && (p.multiplicative ==> level != 0.0)
    ensures PartsFrom(p, values, level, parts) <==>
      forall i :: 0 <= i < p.period ==> values[i] == if p.multiplicative then parts[i] * level else parts[i] + level
  {
    if p.multiplicative {
      forall i | 0 <= i < p.period ensures parts[i] == values[i] / level <==> values[i] == parts[i] * level {
        QuotientIs(values[i], level, parts[i]);
      }
    }
  }

  lemma StartsExactly(p: Params, values: Vec, c: Components, first: real, second: real)
    requires Sized(p, values) && |c.levels| > 0 && |c.trends| > 0 && |c.seasonals| >= p.period
    requires first == SeasonMean(values, 0, p.period) && second == SeasonMean(values, p.period, p.period)
    requires p.multiplicative ==> first != 0.0
    ensures StartsFromSeasons(p, values, c) <==>
      && c.levels[0] == first && c.trends[0] * p.period as real == second - first
      && PartsFrom(p, values, first, c.seasonals)
  {
    hide SeasonMean, Sum, Slice, IsMean, PartsFrom;
    MeansFreed(values, p.period, c.levels[0], c.trends[0], first, second);
    if c.levels[0] == first { PartsFreed(p, values, c.levels[0], c.seasonals); }
  }

  lemma StartsAboveZero(p: Params, values: Vec, c: Components)
    requires Sized(p, values) && |c.levels| > 0 && |c.trends| > 0 && |c.seasonals| >= p.period
    requires StartsFromSeasons(p, values, c) && p.multiplicative
    ensures SeasonMean(values, 0, p.period) == c.levels[0] != 0.0
  {
    hide SeasonMean, Sum, Slice;
    SeasonMeanIs(values, 0, p.period, c.levels[0]);
  }

  lemma InitialIsSmoothed(p: Params, values: Vec, c: Components)
    requires Sized(p, values)
    ensures Initial(p, values) == Some(c) <==> Smoothed(p, values, p.period, c)
  {
    hide SeasonMean, Sum, Slice, IsMean, CorrectedAt, StartsFromSeasons, PartsFrom;
    if |c.levels| == |c.trends| == 1 && |c.seasonals| == p.period {
      assert Smoothed(p, values, p.period, c) <==> StartsFromSeasons(p, values, c);
      var first, second := SeasonMean(values, 0, p.period), SeasonMean(values, p.period, p.period);
      if p.multiplicative && first == 0.0 {
        assert Initial(p, values).None?;
        if StartsFromSeasons(p, values, c) { StartsAboveZero(p, values, c); }
      } else {
        hide Initial;
        InitialByParts(p, values, c, first, second);
        StartsExactly(p, values, c, first, second);
      }
    }
  }

  lemma InitialByParts(p: Params, values: Vec, c: Components, level: real, second: real)
    requires Sized(p, values) && |c.levels| == |c.trends| == 1 && |c.seasonals| == p.period
    requires level == SeasonMean(values, 0, p.period) && second == SeasonMean(values, p.period, p.period)
    requires p.multiplicative ==> level != 0.0
    ensures Initial(p, values) == Some(c) <==>
      && c.levels[0] == level && c.trends[0] * p.period as real == second - level
      && PartsFrom(p, values, level, c.seasonals)
  {
    hide SeasonMean;
    var c0 := Initial(p, values).value;
    ShareIs(c.trends[0], p.period as real, second - level);
    if c.seasonals != c0.seasonals {
      assert exists i :: 0 <= i < p.period && c.seasonals[i] != c0.seasonals[i];
    } else {
      assert c == c0 <==> c.levels[0] == level && c.trends[0] == c0.trends[0];
    }
  }

  /** The components without what the last value added. */
  function Before(c: Components): Components
    requires |c.levels| > 0 && |c.trends| > 0 && |c.seasonals| > 0
  {
    Components(c.levels[..|c.levels| - 1], c.trends[..|c.trends| - 1], c.seasonals[..|c.seasonals| - 1])
  }

  lemma SmoothedBefore(p: Params, values: Vec, t: nat, c: Components)
    requires Sized(p, values) && p.period < t <= |values|
    requires |c.levels| == |c.trends| == t - p.period + 1 && |c.seasonals| == t
    ensures Smoothed(p, values, t, c) <==>
      Smoothed(p, values, t - 1, Before(c)) && CorrectedAt(p, values, c, t - 1 - p.period)
  {
    hide Corrects, Sum, Slice;
    var b := Before(c);
    forall i | 0 <= i < t - 1 - p.period
      ensures CorrectedAt(p, values, c, i) <==> CorrectedAt(p, values, b, i)
    {}
  }

  lemma RunBefore(p: Params, values: Vec, t: nat, c: Components)
    requires Sized(p, values) && p.period < t <= |values|
    requires |c.levels| == |c.trends| == t - p.period + 1 && |c.seasonals| == t
    ensures var k := t - 1 - p.period;
      Run(p, values, t) == Some(c) <==>
        && Run(p, values, t - 1) == Some(Before(c))
        && Next(p, values[t - 1], c.levels[k], c.trends[k], c.seasonals[k])
           == Some(Point(c.levels[k + 1], c.trends[k + 1], c.seasonals[t - 1]))
  {
    hide Next, Initial;
    var b := Before(c);
    assert c.levels == b.levels + [c.levels[t - p.period]];
    assert c.trends == b.trends + [c.trends[t - p.period]];
    assert c.seasonals == b.seasonals + [c.seasonals[t - 1]];
  }

  lemma CorrectedByPoint(p: Params, values: Vec, c: Components, i: nat)
    requires p.period + i < |values| && i + 1 < |c.levels| && i + 1 < |c.trends| && p.period + i < |c.seasonals|
    ensures CorrectedAt(p, values, c, i) <==>
      Corrects(p, values[p.period + i], c.levels[i], c.trends[i], c.seasonals[i],
               Point(c.levels[i + 1], c.trends[i + 1], c.seasonals[p.period + i]))
  {
    hide Corrects;
  }

  /** The fit gives c exactly if c starts from the first two seasons and every further value has
      corrected it by its error; so it gives none exactly where nothing is so. */
  lemma {:induction false} RunIsSmoothed(p: Params, values: Vec, t: nat, c: Components)
    requires Sized(p, values) && p.period <= t <= |values|
    ensures Run(p, values, t) == Some(c) <==> Smoothed(p, values, t, c)
    decreases t
  {
    hide Next, Initial, Corrects, CorrectedAt, StartsFromSeasons;
    if t == p.period {
      InitialIsSmoothed(p, values, c);
    } else if |c.levels| == |c.trends| == t - p.period + 1 && |c.seasonals| == t {
      hide Run, Smoothed;
      var k := t - 1 - p.period;
      CorrectedByPoint(p, values, c, k);
      RunBefore(p, values, t, c);
      SmoothedBefore(p, values, t, c);
      RunIsSmoothed(p, values, t - 1, Before(c));
      StepCorrects(p, values[t - 1], c.levels[k], c.trends[k], c.seasonals[k],
                   Point(c.levels[k + 1], c.trends[k + 1], c.seasonals[t - 1]));
    }
  }

  /** The error that corrects is what the one-step forecast misses. */
  lemma ErrorIsOfForecast(p: Params, values: Vec, c: Components, i: nat)
    requires p.period + i < |values| && i + 1 < |c.levels| && i + 1 < |c.trends| && p.period + i < |c.seasonals|
    requires CorrectedAt(p, values, c, i)
    ensures var e := values[p.period + i] - FittedAt(p, c, i);
      c.levels[i + 1] - c.levels[i] - c.trends[i] == p.alpha * if p.multiplicative then e / c.seasonals[i] else e
  {}

  // ---- periodic histories

  ghost predicate Periodic(values: Vec, period: nat) {
    forall t :: period <= t < |values| ==> values[t] == values[t - period]
  }

  /** The multiplicative form needs a level and values to divide by. */
  ghost predicate Divisible(p: Params, values: Vec)
    requires Sized(p, values)
  {
    p.multiplicative ==>
      SeasonMean(values, 0, p.period) != 0.0 && forall i :: 0 <= i < p.period ==> values[i] != 0.0
  }

  /** Level L, no trend, and each value's own seasonal part, throughout. */
  ghost predicate Steady(p: Params, values: Vec, level: real, c: Components)
    requires p.multiplicative ==> level != 0.0
  {
    && (forall i :: 0 <= i < |c.levels| ==> c.levels[i] == level)
    && (forall i :: 0 <= i < |c.trends| ==> c.trends[i] == 0.0)
    && |c.seasonals| <= |values|
    && forall i :: 0 <= i < |c.seasonals| ==> c.seasonals[i] == Deseasoned(p, values[i], level)
  }

  lemma BlendSame(w: real, x: real)
    ensures Blend(w, x, x) == x
  {}

  lemma QuotientOfQuotient(y: real, level: real)
    requires y != 0.0 && level != 0.0
    ensures y / level != 0.0 && y / (y / level) == level
  {
    assert (y / level) * level == y;
  }

  /** A value whose seasonal part is its own leaves the point where it is. */
  lemma SteadyStep(p: Params, y: real, level: real)
    requires p.multiplicative ==> y != 0.0 && level != 0.0
    ensures Next(p, y, level, 0.0, Deseasoned(p, y, level)) == Some(Point(level, 0.0, Deseasoned(p, y, level)))
  {
    hide Blend;
    var s := Deseasoned(p, y, level);
    if p.multiplicative { QuotientOfQuotient(y, level); }
    assert Deseasoned(p, y, s) == level;
    BlendSame(p.alpha, level);
    BlendSame(p.beta, 0.0);
    BlendSame(p.gamma, s);
    assert level + 0.0 == level && level - level == 0.0 && 0.0 * p.phi == 0.0;
  }

  lemma MultipleAtLeast(d: int, m: int)
    requires d >= 1 && m > 0
    ensures d * m >= m
  {}

  lemma SmallMultiple(d: int, m: int)
    requires 0 < m && -m < d * m < m
    ensures d == 0
  {
    if d >= 1 { MultipleAtLeast(d, m); }
    if d <= -1 { MultipleAtLeast(-d, m); }
  }

  lemma SeasonBack(i: nat, m: nat)
    requires m > 0 && i >= m
    ensures SeasonalIndex(i, m) == SeasonalIndex(i - m, m)
  {
    var q, q' := i / m, (i - m) / m;
    assert i == q * m + i % m && i - m == q' * m + (i - m) % m;
    assert (q - q' - 1) * m == q * m - q' * m - m;
    SmallMultiple(q - q' - 1, m);
  }

  lemma SecondSeasonSame(values: Vec, period: nat)
    requires period > 0 && |values| >= 2 * period && Periodic(values, period)
    ensures SeasonMean(values, period, period) == SeasonMean(values, 0, period)
  {
    assert Slice(values, period, 2 * period) == Slice(values, 0, period);
  }

  lemma {:induction false} NonZeroRepeats(p: Params, values: Vec, i: nat)
    requires Sized(p, values) && Periodic(values, p.period) && Divisible(p, values) && i < |values| && p.multiplicative
    ensures values[i] != 0.0
  {
    if i >= p.period { NonZeroRepeats(p, values, i - p.period); }
  }

  /** On an exactly periodic history of at least two seasons nothing moves, whatever the weights. */
  lemma {:induction false} PeriodicIsFixedPoint(p: Params, values: Vec, t: nat)
    requires Sized(p, values) && |values| >= 2 * p.period && Periodic(values, p.period) && Divisible(p, values)
    requires p.period <= t <= |values|
    ensures Run(p, values, t).Some? && Steady(p, values, SeasonMean(values, 0, p.period), Run(p, values, t).value)
    decreases t
  {
    hide Next, Sum, SeasonMean;
    var level := SeasonMean(values, 0, p.period);
    if t == p.period {
      SecondSeasonSame(values, p.period);
      assert 0.0 / p.period as real == 0.0;
    } else {
      PeriodicIsFixedPoint(p, values, t - 1);
      var y := values[t - 1];
      assert y == values[t - 1 - p.period];
      if p.multiplicative { NonZeroRepeats(p, values, t - 1); }
      SteadyStep(p, y, level);
    }
  }

  /** Then every residual is zero, */
  lemma PeriodicHasNoResiduals(p: Params, values: Vec, i: nat)
    requires Sized(p, values) && |values| >= 2 * p.period && Periodic(values, p.period) && Divisible(p, values)
    requires i < |values| - p.period
    ensures Run(p, values, |values|).Some?
    ensures values[p.period + i] - FittedAt(p, Run(p, values, |values|).value, i) == 0.0
  {
    PeriodicIsFixedPoint(p, values, |values|);
    Recombines(p, values[i], SeasonMean(values, 0, p.period));
    assert values[p.period + i] == values[p.period + i - p.period];
  }

  lemma Recombines(p: Params, y: real, level: real)
    requires p.multiplicative ==> level != 0.0
    ensures Combine(p, level, Deseasoned(p, y, level)) == y
  {
    if p.multiplicative { assert level * (y / level) == y; }
  }

  lemma {:induction false} NoTrendAhead(p: Params, k: nat)
    ensures TrendAhead(p, 0.0, k) == 0.0
  {
    TimesUnit(k as real);
    TimesUnit(Pow(p.phi, k));
    if p.damped && k > 0 { NoTrendAhead(p, k - 1); }
  }

  /** and the forecasts continue the history with the same period, at every horizon. */
  lemma PeriodicIsContinued(p: Params, values: Vec, forecasts: Vec)
    requires Sized(p, values) && |values| >= 2 * p.period && Periodic(values, p.period) && Divisible(p, values)
    requires Run(p, values, |values|).Some?
    requires forall k :: 0 <= k < |forecasts| ==> forecasts[k] == ForecastAt(p, Run(p, values, |values|).value, k + 1)
    ensures Periodic(values + forecasts, p.period)
  {
    hide Run, ForecastAt;
    var m, n := p.period, |values|;
    forall h: nat | h < |forecasts| ensures forecasts[h] == values[n - m + SeasonalIndex(h, m)] {
      PeriodicForecast(p, values, h + 1);
    }
    RepeatsLastSeason(values, forecasts, m);
  }

  lemma RepeatsLastSeason(values: Vec, forecasts: Vec, m: nat)
    requires 0 < m <= |values| && Periodic(values, m)
    requires forall h: nat :: h < |forecasts| ==> forecasts[h] == values[|values| - m + SeasonalIndex(h, m)]
    ensures Periodic(values + forecasts, m)
  {
    hide SeasonalIndex;
    var n, all := |values|, values + forecasts;
    forall t | m <= t < |all| ensures all[t] == all[t - m] {
      if t >= n {
        var h := t - n;
        if h >= m { SeasonBack(h, m); } else { SmallIndex(h, m); }
      }
    }
  }

  lemma SmallIndex(h: nat, m: nat)
    requires h < m
    ensures SeasonalIndex(h, m) == h
  {}

  lemma PeriodicForecast(p: Params, values: Vec, k: nat)
    requires Sized(p, values) && |values| >= 2 * p.period && Periodic(values, p.period) && Divisible(p, values)
    requires k >= 1
    ensures Run(p, values, |values|).Some?
    ensures ForecastAt(p, Run(p, values, |values|).value, k)
         == values[|values| - p.period + SeasonalIndex(k - 1, p.period)]
  {
    hide SeasonalIndex, Run;
    PeriodicIsFixedPoint(p, values, |values|);
    NoTrendAhead(p, k);
    Recombines(p, values[|values| - p.period + SeasonalIndex(k - 1, p.period)], SeasonMean(values, 0, p.period));
  }

  // ---- only periodic histories

  /** Every one-step forecast of the fit was exact. */
  ghost predicate NoResiduals(p: Params, values: Vec, c: Components) {
    && |c.levels| == |c.trends| == |values| - p.period + 1 && |c.seasonals| == |values| >= p.period
    && forall i :: 0 <= i < |values| - p.period ==> values[p.period + i] == FittedAt(p, c, i)
  }

  /** The i-th entries of the components lead to the next ones. */
  lemma {:induction false} RunRecurs(p: Params, values: Vec, t: nat, i: nat)
    requires Sized(p, values) && p.period <= t <= |values| && i < t - p.period && Run(p, values, t).Some?
    ensures var c := Run(p, values, t).value;
      Next(p, values[p.period + i], c.levels[i], c.trends[i], c.seasonals[i])
        == Some(Point(c.levels[i + 1], c.trends[i + 1], c.seasonals[p.period + i]))
  {
    hide Next;
    if i < t - 1 - p.period { RunRecurs(p, values, t - 1, i); }
  }

  /** They start as initializeComponents left them. */
  lemma {:induction false} RunStarts(p: Params, values: Vec, t: nat)
    requires Sized(p, values) && p.period <= t <= |values| && Run(p, values, t).Some?
    ensures Initial(p, values).Some?
    ensures var c, c0 := Run(p, values, t).value, Initial(p, values).value;
      && c.levels[0] == c0.levels[0] && c.trends[0] == c0.trends[0]
      && forall i :: 0 <= i < p.period ==> c.seasonals[i] == c0.seasonals[i]
  {
    hide Next;
    if t > p.period { RunStarts(p, values, t - 1); }
  }

  /** On an exactly periodic history the fit is defined if and only if the form is additive or
      neither the first season's mean nor any of its values is zero. */
  lemma PeriodicFitDefinedExactly(p: Params, values: Vec)
    requires Sized(p, values) && |values| >= 2 * p.period && Periodic(values, p.period)
    ensures Run(p, values, |values|).Some? <==> Divisible(p, values)
  {
    hide Run, Next, Sum, SeasonMean, Steady, Periodic;
    if Divisible(p, values) {
      PeriodicIsFixedPoint(p, values, |values|);
    } else if Run(p, values, |values|).Some? {
      RunStarts(p, values, |values|);
      var level := SeasonMean(values, 0, p.period);
      forall i | 0 <= i < p.period ensures values[i] / level != 0.0 {
        RunRecurs(p, values, |values|, i);
        var c := Run(p, values, |values|).value;
        SeasonalDivides(p, values[p.period + i], c.levels[i], c.trends[i], c.seasonals[i]);
        assert c.seasonals[i] == values[i] / level;
      }
      forall i | 0 <= i < p.period ensures values[i] != 0.0 { ZeroShare(values[i], level); }
    }
  }

  lemma SeasonalDivides(p: Params, y: real, level: real, trend: real, seasonal: real)
    requires p.multiplicative && Next(p, y, level, trend, seasonal).Some?
    ensures seasonal != 0.0
  {}

  lemma ZeroShare(y: real, level: real)
    requires level != 0.0 && y / level != 0.0
    ensures y != 0.0
  {}

  /** 1 + q + ... + q^(k-1) */
  function Geometric(q: real, k: nat): real { if k == 0 then 0.0 else Geometric(q, k - 1) + Pow(q, k - 1) }

  lemma {:induction false} PowBounds(q: real, k: nat)
    requires 0.0 <= q <= 1.0
    ensures 0.0 <= Pow(q, k) <= 1.0
  {
    if k > 0 {
      PowBounds(q, k - 1);
      var x := Pow(q, k - 1);
      assert 0.0 <= q * x && q * x <= 1.0 * x;
    }
  }

  lemma {:induction false} GeometricBounds(q: real, k: nat)
    requires 0.0 <= q <= 1.0
    ensures Geometric(q, k) <= k as real
  {
    if k > 0 {
      GeometricBounds(q, k - 1);
      PowBounds(q, k - 1);
    }
  }

  /** Taking either part off a combination leaves the other. */
  lemma Undo(p: Params, level: real, seasonal: real)
    ensures (p.multiplicative ==> seasonal != 0.0) ==> Deseasoned(p, Combine(p, level, seasonal), seasonal) == level
    ensures (p.multiplicative ==> level != 0.0) ==> Deseasoned(p, Combine(p, level, seasonal), level) == seasonal
  {
    if p.multiplicative { ProductBack(level, seasonal); }
  }

  lemma ProductBack(x: real, s: real)
    ensures s != 0.0 ==> x * s / s == x
    ensures x != 0.0 ==> x * s / x == s
  {}

  /** An exact forecast moves the level by the trend and leaves the seasonal part. */
  lemma ExactStep(p: Params, y: real, level: real, trend: real, seasonal: real)
    requires y == Combine(p, level + trend, seasonal) && Next(p, y, level, trend, seasonal).Some?
    ensures Next(p, y, level, trend, seasonal) == Some(Point(level + trend, Times(Factor(p), trend), seasonal))
  {
    hide Blend, Deseasoned, Combine;
    Undo(p, level + trend, seasonal);
    BlendSame(p.alpha, level + trend);
    BlendSame(p.beta, trend);
    BlendSame(p.gamma, seasonal);
    assert level + trend - level == trend;
    DampedBy(p, trend);
  }

  lemma DampedBy(p: Params, trend: real)
    ensures Damp(p, trend) == Times(Factor(p), trend)
  {}

  /** Without residuals the level runs along a (damped) line and the seasonal parts repeat. */
  lemma {:induction false} LevelsOnALine(p: Params, values: Vec, c: Components, i: nat)
    requires Sized(p, values) && NoResiduals(p, values, c)
    requires Run(p, values, |values|) == Some(c) && i <= |values| - p.period
    ensures c.trends[i] == Times(c.trends[0], Pow(Factor(p), i))
    ensures c.levels[i] == c.levels[0] + Times(c.trends[0], Geometric(Factor(p), i))
    ensures i > 0 ==> c.seasonals[p.period + i - 1] == c.seasonals[i - 1]
  {
    hide Times, Run, Next, Combine;
    var b, q := c.trends[0], Factor(p);
    if i == 0 {
      TimesUnit(b);
    } else {
      LevelsOnALine(p, values, c, i - 1);
      RunRecurs(p, values, |values|, i - 1);
      assert values[p.period + (i - 1)] == FittedAt(p, c, i - 1);
      ExactStep(p, values[p.period + i - 1], c.levels[i - 1], c.trends[i - 1], c.seasonals[i - 1]);
      TimesSwap(q, b, Pow(q, i - 1));
      TimesPlus(b, Geometric(q, i - 1), Pow(q, i - 1));
    }
  }

  // ---- so a trend would have to pay for itself

  /** How much a value gains when the level gains one: its seasonal factor, or one. */
  function Weight(p: Params, seasonal: real): real { if p.multiplicative then seasonal else 1.0 }

  function Weights(p: Params, seasonals: Vec): (w: Vec)
    ensures |w| == |seasonals| && forall i :: 0 <= i < |w| ==> w[i] == Weight(p, seasonals[i])
  {
    seq(|seasonals|, i requires 0 <= i < |seasonals| => Weight(p, seasonals[i]))
  }

  lemma CombineMoves(p: Params, level: real, d: real, seasonal: real)
    ensures Combine(p, level + d, seasonal) == Combine(p, level, seasonal) + Times(d, Weight(p, seasonal))
  {}

  /** What a season gains from a unit of trend. */
  function Gain(q: real, w: Vec): real {
    if w == [] then 0.0 else Gain(q, w[..|w| - 1]) + Times(Geometric(q, |w|), w[|w| - 1])
  }

  lemma {:induction false} SumsDiffer(u: Vec, v: Vec, w: Vec, b: real, q: real)
    requires |u| == |v| == |w|
    requires forall i :: 0 <= i < |u| ==> v[i] == u[i] + Times(Times(b, Geometric(q, i + 1)), w[i])
    ensures Sum(v) == Sum(u) + Times(b, Gain(q, w))
  {
    hide Times, Geometric;
    if u == [] {
      TimesUnit(b);
    } else {
      var n := |u| - 1;
      SumsDiffer(u[..n], v[..n], w[..n], b, q);
      TimesAssociates(b, Geometric(q, n + 1), w[n]);
      TimesPlus(b, Gain(q, w[..n]), Times(Geometric(q, n + 1), w[n]));
    }
  }

  /** The gain is less than the season is long, per unit of weight: the first place gains one. */
  lemma {:induction false} GainBound(q: real, w: Vec, m: real)
    requires 0.0 <= q <= 1.0 && w != [] && |w| as real <= m && forall i :: 0 <= i < |w| ==> w[i] > 0.0
    ensures Gain(q, w) <= Times(m, Sum(w)) - Times(m - 1.0, w[0])
  {
    var n := |w| - 1;
    if n == 0 {
      assert w[..0] == [] && Geometric(q, 1) == 1.0;
      OneGain(m, w[0]);
    } else {
      hide Times, Geometric;
      GainBound(q, w[..n], m);
      GeometricBounds(q, n + 1);
      TimesGrows(Geometric(q, n + 1), m, w[n]);
      TimesPlus(m, Sum(w[..n]), w[n]);
    }
  }

  lemma OneGain(m: real, w: real)
    ensures Times(1.0, w) == Times(m, w) - Times(m - 1.0, w)
  {}

  lemma {:induction false} OnesAddUp(w: Vec)
    requires forall i :: 0 <= i < |w| ==> w[i] == 1.0
    ensures Sum(w) == |w| as real
  {
    if w != [] { OnesAddUp(w[..|w| - 1]); }
  }

  lemma {:induction false} SharesAddUp(u: Vec, w: Vec, level: real)
    requires |u| == |w| && level != 0.0 && forall i :: 0 <= i < |u| ==> w[i] == u[i] / level
    ensures Times(level, Sum(w)) == Sum(u)
  {
    hide Times;
    if u == [] {
      TimesUnit(level);
    } else {
      var n := |u| - 1;
      SharesAddUp(u[..n], w[..n], level);
      QuotientTimes(u[n], level);
      TimesPlus(level, Sum(w[..n]), w[n]);
    }
  }

  lemma TimesCancels(x: real, y: real, z: real)
    requires x != 0.0 && Times(x, y) == Times(x, z)
    ensures y == z
  {
    assert x * (y - z) == 0.0;
  }

  /** `initializeComponents` measures the trend on the sums of two seasons of length m. */
  function MeasuredTrend(first: real, second: real, m: real): real
    requires m != 0.0
  {
    (second / m - first / m) / m
  }

  /** A trend that is measured on what it gains a season must gain m * m per unit, or be zero. */
  lemma TrendVanishes(b: real, s: real, g: real, m: real)
    requires m > 0.0 && g < Times(m, m)
    requires b == MeasuredTrend(s, s + Times(b, g), m)
    ensures b == 0.0
  {
    assert (s + b * g) / m - s / m == b * g / m;
    assert b * m == b * g / m;
    assert b * m * m == b * g;
    assert b * (m * m - g) == 0.0;
  }

  // ---- residuals vanish only on periodic histories

  /** What the multiplicative form asks for: a first season above zero. */
  ghost predicate Positive(p: Params, values: Vec)
    requires Sized(p, values)
  {
    p.multiplicative ==> forall i :: 0 <= i < p.period ==> values[i] > 0.0
  }

  lemma {:induction false} PositiveSum(u: Vec)
    requires u != [] && forall i :: 0 <= i < |u| ==> u[i] > 0.0
    ensures Sum(u) > 0.0
  {
    if |u| > 1 { PositiveSum(u[..|u| - 1]); } else { assert u[..0] == []; }
  }

  lemma PositiveLevel(p: Params, values: Vec)
    requires Sized(p, values) && Positive(p, values) && p.multiplicative
    ensures SeasonMean(values, 0, p.period) > 0.0
  {
    PositiveSum(Slice(values, 0, p.period));
  }

  /** A fit over at least two seasons of length two or more has no residuals exactly when the
      history is periodic; damping must be a damping, and a multiplicative fit needs a first season
      above zero. */
  lemma NoResidualsExactlyWhenPeriodic(p: Params, values: Vec)
    requires Sized(p, values) && p.period >= 2 && |values| >= 2 * p.period && Positive(p, values)
    requires p.damped ==> 0.0 <= p.phi <= 1.0
    requires Run(p, values, |values|).Some?
    ensures NoResiduals(p, values, Run(p, values, |values|).value) <==> Periodic(values, p.period)
  {
    hide Run, FittedAt;
    var c := Run(p, values, |values|).value;
    if p.multiplicative { PositiveLevel(p, values); }
    if Periodic(values, p.period) {
      forall i | 0 <= i < |values| - p.period ensures values[p.period + i] == FittedAt(p, c, i) {
        PeriodicHasNoResiduals(p, values, i);
      }
    }
    if NoResiduals(p, values, c) {
      NoTrendWithoutResiduals(p, values, c);
      forall i | 0 <= i < |values| - p.period ensures values[p.period + i] == values[i] {
        SeasonalPartIsOwn(p, values, c, i);
      }
      forall t | p.period <= t < |values| ensures values[t] == values[t - p.period] {
        assert values[p.period + (t - p.period)] == values[t - p.period];
      }
    }
  }

  /** An additive fit is always defined. */
  lemma {:induction false} AdditiveRuns(p: Params, values: Vec, t: nat)
    requires Sized(p, values) && !p.multiplicative && p.period <= t <= |values|
    ensures Run(p, values, t).Some?
  {
    if t > p.period { AdditiveRuns(p, values, t - 1); }
  }

  /** The weights of the first season add up to its length, in both forms. */
  lemma WeightsAddUp(p: Params, values: Vec, c: Components)
    requires Sized(p, values) && Positive(p, values) && Run(p, values, |values|) == Some(c)
    ensures var w := Weights(p, c.seasonals[..p.period]);
      Sum(w) == p.period as real && forall i :: 0 <= i < p.period ==> w[i] > 0.0
  {
    hide Run, Sum;
    var w, level := Weights(p, c.seasonals[..p.period]), SeasonMean(values, 0, p.period);
    RunStarts(p, values, |values|);
    if p.multiplicative {
      PositiveLevel(p, values);
      var u := Slice(values, 0, p.period);
      forall i | 0 <= i < p.period ensures w[i] == u[i] / level && w[i] > 0.0 { PositiveShare(values[i], level); }
      SharesAddUp(u, w, level);
      QuotientTimes(Sum(u), p.period as real);
      TimesCancels(level, Sum(w), p.period as real);
    } else {
      OnesAddUp(w);
    }
  }

  lemma PositiveShare(y: real, level: real)
    requires y > 0.0 && level > 0.0
    ensures y / level > 0.0
  {}

  /** So a unit of trend gains less than the square of the season's length. */
  lemma GainIsSmall(p: Params, values: Vec, c: Components)
    requires Sized(p, values) && p.period >= 2 && Positive(p, values) && Run(p, values, |values|) == Some(c)
    requires p.damped ==> 0.0 <= p.phi <= 1.0
    ensures Gain(Factor(p), Weights(p, c.seasonals[..p.period])) < Times(p.period as real, p.period as real)
  {
    hide Times, Geometric, Gain, Run, Sum;
    var m, w := p.period as real, Weights(p, c.seasonals[..p.period]);
    WeightsAddUp(p, values, c);
    GainBound(Factor(p), w, m);
    TimesSign(m - 1.0, w[0]);
  }

  /** The second season's sum is the first's and what the trend gains it. */
  lemma SecondSeasonSum(p: Params, values: Vec, c: Components)
    requires Sized(p, values) && |values| >= 2 * p.period
    requires Run(p, values, |values|) == Some(c) && NoResiduals(p, values, c)
    ensures Sum(Slice(values, p.period, 2 * p.period))
         == Sum(Slice(values, 0, p.period)) + Times(c.trends[0], Gain(Factor(p), Weights(p, c.seasonals[..p.period])))
  {
    hide Times, Geometric, Gain, Run, Sum, FittedAt, Combine, NoResiduals;
    var m, b, q := p.period, c.trends[0], Factor(p);
    var u, v, w := Slice(values, 0, m), Slice(values, m, 2 * m), Weights(p, c.seasonals[..m]);
    forall i | 0 <= i < m ensures v[i] == u[i] + Times(Times(b, Geometric(q, i + 1)), w[i]) {
      SecondSeasonAhead(p, values, c, i);
    }
    SumsDiffer(u, v, w, b, q);
  }

  lemma InitialTrend(p: Params, values: Vec, c: Components)
    requires Sized(p, values) && Run(p, values, |values|) == Some(c)
    ensures var m := p.period as real;
      c.trends[0] == MeasuredTrend(Sum(Slice(values, 0, p.period)), Sum(Slice(values, p.period, 2 * p.period)), m)
  {
    hide Run, Sum, Next, Slice;
    RunStarts(p, values, |values|);
  }

  lemma NoTrendWithoutResiduals(p: Params, values: Vec, c: Components)
    requires Sized(p, values) && p.period >= 2 && |values| >= 2 * p.period && Positive(p, values)
    requires p.damped ==> 0.0 <= p.phi <= 1.0
    requires Run(p, values, |values|) == Some(c) && NoResiduals(p, values, c)
    ensures c.trends[0] == 0.0
  {
    GainIsSmall(p, values, c);
    SecondSeasonSum(p, values, c);
    InitialTrend(p, values, c);
    hide Times, Gain, Run, Sum, Slice, NoResiduals, Positive, MeasuredTrend;
    TrendVanishes(c.trends[0], Sum(Slice(values, 0, p.period)),
                  Gain(Factor(p), Weights(p, c.seasonals[..p.period])), p.period as real);
  }

  lemma SecondSeasonAhead(p: Params, values: Vec, c: Components, i: nat)
    requires Sized(p, values) && |values| >= 2 * p.period && i < p.period
    requires Run(p, values, |values|) == Some(c) && NoResiduals(p, values, c)
    ensures values[p.period + i]
         == values[i] + Times(Times(c.trends[0], Geometric(Factor(p), i + 1)), Weight(p, c.seasonals[i]))
  {
    hide Times, Run, Weight;
    RunStarts(p, values, |values|);
    LevelsOnALine(p, values, c, i);
    assert values[p.period + i] == FittedAt(p, c, i);
    TimesPlus(c.trends[0], Geometric(Factor(p), i), Pow(Factor(p), i));
    Recombines(p, values[i], c.levels[0]);
    hide Combine;
    CombineMoves(p, c.levels[0], Times(c.trends[0], Geometric(Factor(p), i + 1)), c.seasonals[i]);
  }

  lemma {:induction false} SeasonalPartIsOwn(p: Params, values: Vec, c: Components, i: nat)
    requires Sized(p, values) && i < |values| - p.period
    requires Run(p, values, |values|) == Some(c) && NoResiduals(p, values, c) && c.trends[0] == 0.0
    ensures values[p.period + i] == values[i] == Combine(p, c.levels[0], c.seasonals[i])
    decreases i
  {
    hide Run, Combine, Times;
    LevelsOnALine(p, values, c, i);
    TimesUnit(Pow(Factor(p), i));
    TimesUnit(Geometric(Factor(p), i));
    assert values[p.period + i] == FittedAt(p, c, i);
    if i < p.period {
      RunStarts(p, values, |values|);
      Recombines(p, values[i], c.levels[0]);
    } else {
      SeasonalPartIsOwn(p, values, c, i - p.period);
      LevelsOnALine(p, values, c, i - p.period + 1);
    }
  }
}

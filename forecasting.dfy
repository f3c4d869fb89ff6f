// Sales forecasting (analytics/services.py): moving average, single exponential smoothing and
// additive Holt-Winters over daily series, with their error metrics and the zero-filled daily
// series they run on. Floats are modelled as reals; round(x, 2) is Arith.Round2.
module Forecasting {
  import opened Wrappers
  import opened Arith
  import opened RealMath

  const DefaultAlpha: real := 0.3
  const DefaultBeta: real := 0.1
  const DefaultGamma: real := 0.2
  /** Weekly seasonality. */
  const SeasonPeriod: nat := 7

  datatype Params = Params(alpha: real, beta: real, gamma: real)

  /** `x or default`: a missing or zero argument falls back to the default. */
  function OrDefault(x: Option<real>, default: real): real
  {
    if x.Some? && x.value != 0.0 then x.value else default
  }

  /** ForecastingService(alpha, beta, gamma). */
  function MakeParams(alpha: Option<real>, beta: Option<real>, gamma: Option<real>): (p: Params)
    ensures alpha.Some? && alpha.value != 0.0 ==> p.alpha == alpha.value
    ensures (alpha.None? || alpha.value == 0.0) ==> p.alpha == DefaultAlpha
    ensures beta.Some? && beta.value != 0.0 ==> p.beta == beta.value
    ensures (beta.None? || beta.value == 0.0) ==> p.beta == DefaultBeta
    ensures gamma.Some? && gamma.value != 0.0 ==> p.gamma == gamma.value
    ensures (gamma.None? || gamma.value == 0.0) ==> p.gamma == DefaultGamma
    ensures p.alpha != 0.0 && p.beta != 0.0 && p.gamma != 0.0
  {
    Params(OrDefault(alpha, DefaultAlpha), OrDefault(beta, DefaultBeta), OrDefault(gamma, DefaultGamma))
  }

  /** `season_period or SEASON_PERIOD`: a zero period means weekly. */
  function Period(seasonPeriod: nat): (m: nat)
    ensures m >= 1
    ensures seasonPeriod != 0 ==> m == seasonPeriod
    ensures seasonPeriod == 0 ==> m == SeasonPeriod
  {
    if seasonPeriod != 0 then seasonPeriod else SeasonPeriod
  }

  function Last(s: seq<real>): real
    requires |s| > 0
  {
    s[|s| - 1]
  }

  // ---------------------------------------------------------------- moving_average

  /** The mean of the `window` values ending at index i. */
  function WindowMean(data: seq<real>, i: int, window: nat): real
    requires 1 <= window && window - 1 <= i < |data|
  {
    Sum(data[i - window + 1..i + 1]) / window as real
  }

  /**
   * moving_average: a copy when the series is shorter than the window; otherwise no value for
   * the first window - 1 days, then the rounded mean of each trailing window.
   */
  method MovingAverage(data: seq<real>, window: nat) returns (r: seq<Option<real>>)
    requires window >= 1
    ensures |r| == |data|
    ensures |data| < window ==> forall i :: 0 <= i < |data| ==> r[i] == Some(data[i])
    ensures |data| >= window ==> forall i :: 0 <= i < window - 1 ==> r[i] == None
    ensures |data| >= window ==>
      forall i :: window - 1 <= i < |data| ==> r[i] == Some(Round2(WindowMean(data, i, window)))
  {
    if |data| < window {
      r := seq(|data|, i requires 0 <= i < |data| => Some(data[i]));
      return;
    }
    r := seq(window - 1, _ => None);
    var i := window - 1;
    while i < |data|
      invariant window - 1 <= i <= |data|
      invariant |r| == i
      invariant forall k :: 0 <= k < window - 1 ==> r[k] == None
      invariant forall k :: window - 1 <= k < i ==> r[k] == Some(Round2(WindowMean(data, k, window)))
    {
      var windowSlice := data[i - window + 1..i + 1];
      var avg := Sum(windowSlice) / window as real;
      r := r + [Some(Round2(avg))];
      i := i + 1;
    }
  }

  /** A window mean lies within the range of the values it averages. */
  lemma WindowMeanBounds(data: seq<real>, i: int, window: nat, lo: real, hi: real)
    requires 1 <= window && window - 1 <= i < |data|
    requires forall k :: 0 <= k < |data| ==> lo <= data[k] <= hi
    ensures lo <= WindowMean(data, i, window) <= hi
  {
    var w := data[i - window + 1..i + 1];
    assert forall k :: 0 <= k < |w| ==> w[k] == data[i - window + 1 + k];
    MeanBounds(w, lo, hi);
  }

  /** On a constant series every window mean is that constant. */
  lemma WindowMeanOfConstant(data: seq<real>, i: int, window: nat, c: real)
    requires 1 <= window && window - 1 <= i < |data|
    requires forall k :: 0 <= k < |data| ==> data[k] == c
    ensures WindowMean(data, i, window) == c
  {
    WindowMeanBounds(data, i, window, c, c);
  }

  // ---------------------------------------------------------------- moving_average_forecast

  /** The level the moving-average forecast repeats. */
  function LastAverage(data: seq<real>, window: nat): real
    requires window >= 1
  {
    if |data| < window then (if data == [] then 0.0 else Sum(data) / |data| as real)
    else Sum(data[|data| - window..]) / window as real
  }

  /** moving_average_forecast: `horizon` copies of the rounded last average. */
  function MovingAverageForecast(data: seq<real>, window: nat, horizon: nat): (r: seq<real>)
    requires window >= 1
    ensures |r| == horizon
    ensures forall i :: 0 <= i < horizon ==> r[i] == Round2(LastAverage(data, window))
  {
    seq(horizon, _ => Round2(LastAverage(data, window)))
  }

  /**
   * The forecast level is the last moving-average value when the series covers a window, and
   * it lies within the range of the history (0 for no history).
   */
  lemma LastAverageMeaning(data: seq<real>, window: nat, lo: real, hi: real)
    requires window >= 1
    requires forall k :: 0 <= k < |data| ==> lo <= data[k] <= hi
    ensures |data| >= window ==> LastAverage(data, window) == WindowMean(data, |data| - 1, window)
    ensures data == [] ==> LastAverage(data, window) == 0.0
    ensures data != [] ==> lo <= LastAverage(data, window) <= hi
  {
    if |data| >= window {
      assert data[|data| - window..] == data[|data| - 1 - window + 1..|data| - 1 + 1];
      WindowMeanBounds(data, |data| - 1, window, lo, hi);
    } else if data != [] {
      MeanBounds(data, lo, hi);
    }
  }

  // ---------------------------------------------------------------- single_exponential_smoothing

  /**
   * r is the exponential smoothing of data: the first value is kept as is, and each later one
   * is alpha * x_t + (1 - alpha) * s_(t-1), rounded to 2 places.
   */
  predicate IsSes(alpha: real, data: seq<real>, r: seq<real>)
  {
    |r| == |data| &&
    (|data| > 0 ==> r[0] == data[0]) &&
    forall t :: 1 <= t < |data| ==> r[t] == Smooth(alpha, data[t], r[t - 1])
  }

  /** One smoothing step: alpha * x + (1 - alpha) * previous, rounded to 2 places. */
  function Smooth(alpha: real, x: real, previous: real): real
  {
    Round2(alpha * x + (1.0 - alpha) * previous)
  }

  /** single_exponential_smoothing. */
  method SingleExponentialSmoothing(alpha: real, data: seq<real>) returns (r: seq<real>)
    ensures IsSes(alpha, data, r)
  {
    if data == [] {
      return [];
    }
    r := [data[0]];
    for i := 1 to |data|
      invariant |r| == i && r[0] == data[0]
      invariant forall t :: 1 <= t < i ==> r[t] == Smooth(alpha, data[t], r[t - 1])
    {
      r := r + [Smooth(alpha, data[i], r[i - 1])];
    }
  }

  /** The smoothing of a series is unique. */
  lemma {:induction false} SesUnique(alpha: real, data: seq<real>, r1: seq<real>, r2: seq<real>)
    requires IsSes(alpha, data, r1) && IsSes(alpha, data, r2)
    ensures r1 == r2
  {
    var t := 0;
    while t < |data|
      invariant 0 <= t <= |data|
      invariant r1[..t] == r2[..t]
    {
      assert t > 0 ==> r1[t - 1] == r2[t - 1];
      t := t + 1;
    }
    assert r1 == r1[..t] && r2 == r2[..t];
  }

  /** A constant series on the cent grid smooths to itself, whatever alpha is. */
  lemma SesOfConstant(alpha: real, data: seq<real>, k: int)
    requires forall i :: 0 <= i < |data| ==> data[i] == k as real / 100.0
    ensures IsSes(alpha, data, data)
  {
    var c := k as real / 100.0;
    Round2Fixed(k);
    forall t | 1 <= t < |data|
      ensures data[t] == Smooth(alpha, data[t], data[t - 1])
    {
      assert data[t] == c && data[t - 1] == c;
      assert alpha * c + (1.0 - alpha) * c == c;
    }
  }

  /** With alpha = 1 the smoothing of a series on the cent grid is the series itself. */
  lemma SesFullWeight(data: seq<real>)
    requires forall i :: 0 <= i < |data| ==> Round2(data[i]) == data[i]
    ensures IsSes(1.0, data, data)
  {
    forall t | 1 <= t < |data|
      ensures data[t] == Smooth(1.0, data[t], data[t - 1])
    {
      assert 1.0 * data[t] + (1.0 - 1.0) * data[t - 1] == data[t];
    }
  }

  // ---------------------------------------------------------------- holt_winters

  /** The lists holt_winters builds: one level, trend and smoothed value per day, and m + t - 1 seasonal terms after t days. */
  datatype HwState = HwState(levels: seq<real>, trends: seq<real>, seasons: seq<real>, smoothed: seq<real>)

  predicate Shaped(st: HwState, m: nat, t: nat)
  {
    t >= 1 && |st.levels| == t && |st.trends| == t && |st.smoothed| == t && |st.seasons| == m + t - 1
  }

  /** l0: the mean of the first season. */
  function InitialLevel(data: seq<real>, m: nat): real
    requires 1 <= m <= |data|
  {
    Sum(data[..m]) / m as real
  }

  /** b0: the difference of the means of the first two seasons, per day. */
  function InitialTrend(data: seq<real>, m: nat): real
    requires 1 <= m && 2 * m <= |data|
  {
    (Sum(data[m..2 * m]) / m as real - Sum(data[..m]) / m as real) / m as real
  }

  /** The initial seasonal terms: each day of the first season minus l0. */
  function InitialSeasons(data: seq<real>, m: nat): (season: seq<real>)
    requires 1 <= m <= |data|
    ensures |season| == m
  {
    seq(m, i requires 0 <= i < m => data[i] - InitialLevel(data, m))
  }

  function LevelUpdate(alpha: real, x: real, sPrev: real, level: real, trend: real): real
  {
    alpha * (x - sPrev) + (1.0 - alpha) * (level + trend)
  }

  function TrendUpdate(beta: real, newLevel: real, level: real, trend: real): real
  {
    beta * (newLevel - level) + (1.0 - beta) * trend
  }

  function SeasonUpdate(gamma: real, x: real, newLevel: real, sPrev: real): real
  {
    gamma * (x - newLevel) + (1.0 - gamma) * sPrev
  }

  /**
   * The day whose seasonal pattern the entry at index j of the seasonal list estimates, modulo m:
   * entry j < m is the initial estimate for day j of the season, and entry j >= m is the
   * estimate made on day j - m + 1.
   */
  function SeasonPhase(j: nat, m: nat): nat
    requires m >= 1
  {
    if j < m then j else (j - m + 1) % m
  }

  /**
   * The corrected index: the seasonal entry the step for day t should read as "the same day
   * one season ago", the latest entry already in the list whose phase is that of day t.
   */
  function PrevSeasonIndex(t: nat, m: nat): (j: nat)
    requires m >= 1 && t >= 1
    ensures j < m + t - 1
  {
    if t < m then t else if t == m then 0 else t - 1
  }

  /**
   * The index holt_winters reads: the initial estimate of day t in the first season, and
   * seasons[t - m] from then on. The recurrence below uses it.
   */
  function PrevSeasonIndexAsWritten(t: nat, m: nat): (j: nat)
    requires m >= 1 && t >= 1
    ensures j < m + t - 1
  {
    if t < m then t else t - m
  }

  lemma ModUnique(x: int, m: int, q: int, r: int)
    requires m >= 1 && 0 <= r < m && x == m * q + r
    ensures x % m == r
  {
    var q2 := x / m;
    var r2 := x % m;
    assert x == m * q2 + r2;
    assert m * (q - q2) == r2 - r;
    if q - q2 >= 1 {
      MulAtLeast(m, q - q2);
      assert false;
    } else if q2 - q >= 1 {
      MulAtLeast(m, q2 - q);
      assert false;
    }
  }

  lemma ModShift(x: int, k: int, m: int)
    requires m >= 1
    ensures (x + m * k) % m == x % m
  {
    assert x + m * k == m * (x / m + k) + x % m;
    ModUnique(x + m * k, m, x / m + k, x % m);
  }

  /** Two numbers less than m apart have different remainders. */
  lemma ModDistinct(x: int, t: int, m: int)
    requires m >= 1 && 0 < t - x < m
    ensures x % m != t % m
  {
    var qt := t / m;
    var qx := x / m;
    if x % m == t % m {
      var r := x % m;
      assert t == m * qt + r && x == m * qx + r;
      var d := qt - qx;
      assert t - x == m * d;
      if d >= 1 {
        MulAtLeast(m, d);
        assert false;
      } else {
        MulMonotone(m, d, 0);
        assert false;
      }
    }
  }

  /**
   * The corrected index reads an entry for the phase of day t, and no later entry for that
   * phase exists yet: from day m + 1 on it is the estimate made exactly one season earlier.
   */
  lemma PrevSeasonIndexIsLatest(t: nat, m: nat)
    requires m >= 1 && t >= 1
    ensures SeasonPhase(PrevSeasonIndex(t, m), m) == t % m
    ensures forall k :: PrevSeasonIndex(t, m) < k < m + t - 1 ==> SeasonPhase(k, m) != t % m
    ensures t > m ==> PrevSeasonIndex(t, m) - m + 1 == t - m
  {
    if t < m {
      ModUnique(t, m, 0, t);
      forall k | t < k < m + t - 1
        ensures SeasonPhase(k, m) != t % m
      {
        if k >= m {
          ModUnique(k - m + 1, m, 0, k - m + 1);
        }
      }
    } else if t == m {
      ModUnique(t, m, 1, 0);
      forall k | 0 < k < m + t - 1
        ensures SeasonPhase(k, m) != t % m
      {
        if k >= m {
          ModUnique(k - m + 1, m, 0, k - m + 1);
        }
      }
    } else {
      ModShift(t - m, 1, m);
      forall k | t - 1 < k < m + t - 1
        ensures SeasonPhase(k, m) != t % m
      {
        ModDistinct(k - m + 1, t, m);
      }
    }
  }

  /**
   * As written, from day 2m on the step reads the entry made on day t - 2m + 1, whose phase is
   * that of day t + 1, not day t: the seasonal term is one day out of step.
   */
  lemma AsWrittenSeasonIndexOutOfPhase(t: nat, m: nat)
    requires m >= 2 && t >= 2 * m
    ensures SeasonPhase(PrevSeasonIndexAsWritten(t, m), m) == (t + 1) % m
    ensures SeasonPhase(PrevSeasonIndexAsWritten(t, m), m) != t % m
  {
    ModShift(t - 2 * m + 1, 2, m);
    ModDistinct(t, t + 1, m);
  }

  /** The smallest instance: weekly season, 15 days, day 14 reads the estimate made on day 1. */
  lemma AsWrittenSeasonIndexExample()
    ensures PrevSeasonIndexAsWritten(14, 7) == 7 && SeasonPhase(7, 7) == 1 && 14 % 7 == 0
    ensures PrevSeasonIndex(14, 7) == 13 && SeasonPhase(13, 7) == 0
  {
  }

  function HwInit(data: seq<real>, m: nat): (st: HwState)
    requires 1 <= m && 2 * m <= |data|
    ensures Shaped(st, m, 1)
  {
    var l0 := InitialLevel(data, m);
    var b0 := InitialTrend(data, m);
    var season := InitialSeasons(data, m);
    HwState([l0], [b0], season, [l0 + b0 + season[0]])
  }

  /** One day of the additive Holt-Winters recurrence. */
  function HwStep(p: Params, data: seq<real>, m: nat, st: HwState, t: nat): (next: HwState)
    requires m >= 1 && 1 <= t < |data| && Shaped(st, m, t)
    ensures Shaped(next, m, t + 1)
  {
    var sPrev := st.seasons[PrevSeasonIndexAsWritten(t, m)];
    var l := LevelUpdate(p.alpha, data[t], sPrev, Last(st.levels), Last(st.trends));
    var b := TrendUpdate(p.beta, l, Last(st.levels), Last(st.trends));
    var s := SeasonUpdate(p.gamma, data[t], l, sPrev);
    HwState(st.levels + [l], st.trends + [b], st.seasons + [s], st.smoothed + [Round2(l + b + s)])
  }

  /** The lists after the first k days. */
  function HwTrace(p: Params, data: seq<real>, m: nat, k: nat): (st: HwState)
    requires 1 <= m && 2 * m <= |data| && 1 <= k <= |data|
    ensures Shaped(st, m, k)
    decreases k
  {
    if k == 1 then HwInit(data, m) else HwStep(p, data, m, HwTrace(p, data, m, k - 1), k - 1)
  }

  datatype Components = Components(levels: seq<real>, trends: seq<real>, seasons: seq<real>)

  /**
   * holt_winters: the exponential smoothing with no components when the series is shorter than
   * two seasons; otherwise the smoothed values and the level, trend and seasonal lists of the
   * additive recurrence.
   */
  method HoltWinters(p: Params, data: seq<real>, seasonPeriod: nat) returns (smoothed: seq<real>, components: Option<Components>)
    ensures |data| < 2 * Period(seasonPeriod) ==> components == None && IsSes(p.alpha, data, smoothed)
    ensures |data| >= 2 * Period(seasonPeriod) ==>
      var st := HwTrace(p, data, Period(seasonPeriod), |data|);
      smoothed == st.smoothed && components == Some(Components(st.levels, st.trends, st.seasons))
  {
    var m := Period(seasonPeriod);
    var n := |data|;
    if n < 2 * m {
      smoothed := SingleExponentialSmoothing(p.alpha, data);
      return smoothed, None;
    }
    var l0 := Sum(data[..m]) / m as real;
    var b0 := (Sum(data[m..2 * m]) / m as real - Sum(data[..m]) / m as real) / m as real;
    var season := seq(m, i requires 0 <= i < m => data[i] - l0);
    var levels := [l0];
    var trends := [b0];
    var seasons := season;
    smoothed := [l0 + b0 + season[0]];
    for t := 1 to n
      invariant HwState(levels, trends, seasons, smoothed) == HwTrace(p, data, m, t)
    {
      var sPrev := seasons[PrevSeasonIndexAsWritten(t, m)];
      var l := LevelUpdate(p.alpha, data[t], sPrev, levels[|levels| - 1], trends[|trends| - 1]);
      var b := TrendUpdate(p.beta, l, levels[|levels| - 1], trends[|trends| - 1]);
      var s := SeasonUpdate(p.gamma, data[t], l, sPrev);
      levels := levels + [l];
      trends := trends + [b];
      seasons := seasons + [s];
      smoothed := smoothed + [Round2(l + b + s)];
    }
    components := Some(Components(levels, trends, seasons));
  }

  /** The lists of a are the first j days of those of b. */
  predicate PrefixOf(a: HwState, b: HwState, m: nat, j: nat)
  {
    1 <= m && 1 <= j <= |b.levels| && j <= |b.trends| && j <= |b.smoothed| && m + j - 1 <= |b.seasons| &&
    a.levels == b.levels[..j] && a.trends == b.trends[..j] && a.smoothed == b.smoothed[..j] &&
    a.seasons == b.seasons[..m + j - 1]
  }

  /** Later days only append: the lists after j days are prefixes of the lists after k days. */
  lemma {:induction false} HwTracePrefix(p: Params, data: seq<real>, m: nat, j: nat, k: nat)
    requires 1 <= m && 2 * m <= |data| && 1 <= j <= k <= |data|
    ensures PrefixOf(HwTrace(p, data, m, j), HwTrace(p, data, m, k), m, j)
    decreases k
  {
    if j < k {
      var a := HwTrace(p, data, m, j);
      var c := HwTrace(p, data, m, k - 1);
      var b := HwTrace(p, data, m, k);
      HwTracePrefix(p, data, m, j, k - 1);
      assert PrefixOf(a, c, m, j);
      StepExtends(p, data, m, c, k - 1, b);
      PrefixChain(a, c, b, m, j, k - 1);
    }
  }

  /** Being a prefix of the lists is transitive. */
  lemma PrefixChain(a: HwState, c: HwState, b: HwState, m: nat, j: nat, i: nat)
    requires j <= i && PrefixOf(a, c, m, j) && PrefixOf(c, b, m, i)
    ensures PrefixOf(a, b, m, j)
  {
  }

  /** A day of the recurrence appends one entry to each list and keeps the earlier ones. */
  lemma StepExtends(p: Params, data: seq<real>, m: nat, st: HwState, t: nat, next: HwState)
    requires m >= 1 && 1 <= t < |data| && Shaped(st, m, t) && next == HwStep(p, data, m, st, t)
    ensures PrefixOf(st, next, m, t)
  {
  }

  /**
   * Day t of the recurrence holds in st: the level, trend, seasonal term and smoothed value of
   * day t follow from day t - 1 and the previous season's entry.
   */
  predicate DayHolds(p: Params, data: seq<real>, m: nat, st: HwState, t: nat)
  {
    m >= 1 && 1 <= t < |data| && t < |st.levels| && t < |st.trends| && t < |st.smoothed| &&
    m + t - 1 < |st.seasons| &&
    var sPrev := st.seasons[PrevSeasonIndexAsWritten(t, m)];
    st.levels[t] == LevelUpdate(p.alpha, data[t], sPrev, st.levels[t - 1], st.trends[t - 1]) &&
    st.trends[t] == TrendUpdate(p.beta, st.levels[t], st.levels[t - 1], st.trends[t - 1]) &&
    st.seasons[m + t - 1] == SeasonUpdate(p.gamma, data[t], st.levels[t], sPrev) &&
    st.smoothed[t] == Round2(st.levels[t] + st.trends[t] + st.seasons[m + t - 1])
  }

  /** Day t of the recurrence, read off the lists after t + 1 days. */
  lemma HwStepFacts(p: Params, data: seq<real>, m: nat, t: nat)
    requires 1 <= m && 2 * m <= |data| && 1 <= t < |data|
    ensures DayHolds(p, data, m, HwTrace(p, data, m, t + 1), t)
  {
    var a := HwTrace(p, data, m, t);
    var c := HwTrace(p, data, m, t + 1);
    assert c == HwStep(p, data, m, a, t);
    assert c.levels[t - 1] == a.levels[t - 1] && c.trends[t - 1] == a.trends[t - 1];
    assert c.seasons[PrevSeasonIndexAsWritten(t, m)] == a.seasons[PrevSeasonIndexAsWritten(t, m)];
  }

  /** The facts of day t survive appending more days. */
  lemma DayTransfer(p: Params, data: seq<real>, m: nat, t: nat, c: HwState, st: HwState)
    requires DayHolds(p, data, m, c, t)
    requires |c.levels| <= |st.levels| && c.levels == st.levels[..|c.levels|]
    requires |c.trends| <= |st.trends| && c.trends == st.trends[..|c.trends|]
    requires |c.smoothed| <= |st.smoothed| && c.smoothed == st.smoothed[..|c.smoothed|]
    requires |c.seasons| <= |st.seasons| && c.seasons == st.seasons[..|c.seasons|]
    ensures DayHolds(p, data, m, st, t)
  {
    assert st.levels[t] == c.levels[t] && st.levels[t - 1] == c.levels[t - 1];
    assert st.trends[t] == c.trends[t] && st.trends[t - 1] == c.trends[t - 1];
    assert st.seasons[m + t - 1] == c.seasons[m + t - 1];
    assert st.seasons[PrevSeasonIndexAsWritten(t, m)] == c.seasons[PrevSeasonIndexAsWritten(t, m)];
    assert st.smoothed[t] == c.smoothed[t];
  }

  /** The first day of the lists holt_winters returns: l0, b0, the initial seasons and their sum. */
  lemma HoltWintersInitial(p: Params, data: seq<real>, m: nat)
    requires 1 <= m && 2 * m <= |data|
    ensures var st := HwTrace(p, data, m, |data|);
      st.levels[0] == InitialLevel(data, m) && st.trends[0] == InitialTrend(data, m) &&
      st.seasons[..m] == InitialSeasons(data, m) &&
      st.smoothed[0] == st.levels[0] + st.trends[0] + st.seasons[0]
  {
    var n := |data|;
    HwTracePrefix(p, data, m, 1, n);
    var a := HwTrace(p, data, m, 1);
    var st := HwTrace(p, data, m, n);
    assert a == HwInit(data, m);
    assert st.levels[0] == a.levels[0] && st.trends[0] == a.trends[0] && st.smoothed[0] == a.smoothed[0];
    assert st.seasons[0] == a.seasons[0];
  }

  /** Every later day of the lists holt_winters returns follows the additive recurrence. */
  lemma HoltWintersRecurrence(p: Params, data: seq<real>, m: nat)
    requires 1 <= m && 2 * m <= |data|
    ensures forall t :: 1 <= t < |data| ==> DayHolds(p, data, m, HwTrace(p, data, m, |data|), t)
  {
    var n := |data|;
    var st := HwTrace(p, data, m, n);
    forall t | 1 <= t < n
      ensures DayHolds(p, data, m, st, t)
    {
      HwStepFacts(p, data, m, t);
      HwTracePrefix(p, data, m, t + 1, n);
      DayTransfer(p, data, m, t, HwTrace(p, data, m, t + 1), st);
    }
  }

  /** The lists of a constant series: level c, no trend, no seasonal deviation. */
  predicate ConstantState(st: HwState, c: real)
  {
    (forall i :: 0 <= i < |st.levels| ==> st.levels[i] == c) &&
    (forall i :: 0 <= i < |st.trends| ==> st.trends[i] == 0.0) &&
    (forall i :: 0 <= i < |st.seasons| ==> st.seasons[i] == 0.0) &&
    |st.smoothed| > 0 && st.smoothed[0] == c &&
    (forall i :: 1 <= i < |st.smoothed| ==> st.smoothed[i] == Round2(c))
  }

  lemma InitConstant(data: seq<real>, m: nat, c: real)
    requires 1 <= m && 2 * m <= |data|
    requires forall i :: 0 <= i < |data| ==> data[i] == c
    ensures ConstantState(HwInit(data, m), c)
  {
    var first := data[..m];
    var second := data[m..2 * m];
    MeanBounds(first, c, c);
    MeanBounds(second, c, c);
    assert InitialLevel(data, m) == c;
    assert InitialTrend(data, m) == 0.0;
  }

  lemma StepConstant(p: Params, data: seq<real>, m: nat, a: HwState, t: nat, c: real)
    requires m >= 1 && 1 <= t < |data| && Shaped(a, m, t)
    requires data[t] == c && ConstantState(a, c)
    ensures ConstantState(HwStep(p, data, m, a, t), c)
  {
    assert a.seasons[PrevSeasonIndexAsWritten(t, m)] == 0.0;
    assert Last(a.levels) == c && Last(a.trends) == 0.0;
    assert LevelUpdate(p.alpha, c, 0.0, c, 0.0) == c;
    assert TrendUpdate(p.beta, c, c, 0.0) == 0.0;
    assert SeasonUpdate(p.gamma, c, c, 0.0) == 0.0;
  }

  /** A constant series is fitted exactly: its level is the constant and trend and seasons vanish. */
  lemma {:induction false} HoltWintersOfConstant(p: Params, data: seq<real>, m: nat, k: nat, c: real)
    requires 1 <= m && 2 * m <= |data| && 1 <= k <= |data|
    requires forall i :: 0 <= i < |data| ==> data[i] == c
    ensures ConstantState(HwTrace(p, data, m, k), c)
    decreases k
  {
    if k == 1 {
      InitConstant(data, m, c);
    } else {
      HoltWintersOfConstant(p, data, m, k - 1, c);
      StepConstant(p, data, m, HwTrace(p, data, m, k - 1), k - 1, c);
    }
  }

  // ---------------------------------------------------------------- holt_winters_forecast

  /** The seasonal entry the forecast h days ahead of n observed days reads. */
  function ForecastSeasonIndex(n: nat, m: nat, h: nat): (j: nat)
    requires m >= 1 && n >= 1 && h >= 1
    ensures j < m + n - 1
  {
    (m + n - 1) - m + (h - 1) % m
  }

  /** The forecast reads the latest estimate made for the phase of the day it forecasts. */
  lemma ForecastSeasonIndexPhase(n: nat, m: nat, h: nat)
    requires m >= 1 && n >= 2 * m && h >= 1
    ensures ForecastSeasonIndex(n, m, h) >= m
    ensures SeasonPhase(ForecastSeasonIndex(n, m, h), m) == (n - 1 + h) % m
    ensures h <= m ==> ForecastSeasonIndex(n, m, h) - m + 1 == n - 1 + h - m
  {
    var r := (h - 1) % m;
    var q := (h - 1) / m;
    assert h - 1 == m * q + r;
    var x := n - m + r;
    assert n - 1 + h == x + m * (q + 1);
    ModShift(x, q + 1, m);
    if h <= m {
      ModUnique(h - 1, m, 0, h - 1);
    }
  }

  /** level + h * trend + seasonal term, before clamping. */
  function HwForecastValue(st: HwState, n: nat, m: nat, h: nat): real
    requires m >= 1 && h >= 1 && Shaped(st, m, n)
  {
    ForecastValue(st.levels, st.trends, st.seasons, n, m, h)
  }

  function ForecastValue(levels: seq<real>, trends: seq<real>, seasons: seq<real>, n: nat, m: nat, h: nat): real
    requires m >= 1 && h >= 1 && n >= 1 && |levels| == n == |trends| && |seasons| == m + n - 1
  {
    Last(levels) + h as real * Last(trends) + seasons[ForecastSeasonIndex(n, m, h)]
  }

  /** The forecast loop of holt_winters_forecast over the final level, trend and seasonal lists. */
  method ForecastFromComponents(levels: seq<real>, trends: seq<real>, seasons: seq<real>, n: nat, m: nat, horizon: nat)
    returns (forecast: seq<real>)
    requires m >= 1 && n >= 1 && |levels| == n == |trends| && |seasons| == m + n - 1
    ensures |forecast| == horizon
    ensures forall h :: 1 <= h <= horizon ==>
      forecast[h - 1] == Round2(Max(ForecastValue(levels, trends, seasons, n, m, h), 0.0))
    ensures forall i :: 0 <= i < horizon ==> forecast[i] >= 0.0
  {
    var lastLevel := levels[|levels| - 1];
    var lastTrend := trends[|trends| - 1];
    forecast := [];
    for h := 1 to horizon + 1
      invariant |forecast| == h - 1
      invariant forall k :: 1 <= k < h ==>
        forecast[k - 1] == Round2(Max(ForecastValue(levels, trends, seasons, n, m, k), 0.0))
      invariant forall i :: 0 <= i < h - 1 ==> forecast[i] >= 0.0
    {
      var seasonIdx := |seasons| - m + (h - 1) % m;
      assert seasonIdx == ForecastSeasonIndex(n, m, h);
      var s := if 0 <= seasonIdx < |seasons| then seasons[seasonIdx] else 0.0;
      var yHat := lastLevel + h as real * lastTrend + s;
      assert yHat == ForecastValue(levels, trends, seasons, n, m, h);
      forecast := forecast + [Round2(Max(yHat, 0.0))];
    }
  }

  /**
   * holt_winters_forecast: with components, level + h * trend + the seasonal term for that
   * day, clamped at 0 and rounded; without them, the last smoothed value (0 for no data)
   * repeated, not clamped.
   */
  method HoltWintersForecast(p: Params, data: seq<real>, horizon: nat, seasonPeriod: nat)
    returns (forecast: seq<real>, smoothed: seq<real>)
    ensures |forecast| == horizon
    ensures |data| < 2 * Period(seasonPeriod) ==>
      IsSes(p.alpha, data, smoothed) &&
      forall i :: 0 <= i < horizon ==> forecast[i] == Round2(if smoothed == [] then 0.0 else Last(smoothed))
    ensures |data| >= 2 * Period(seasonPeriod) ==>
      var st := HwTrace(p, data, Period(seasonPeriod), |data|);
      smoothed == st.smoothed &&
      forall h :: 1 <= h <= horizon ==>
        forecast[h - 1] == Round2(Max(HwForecastValue(st, |data|, Period(seasonPeriod), h), 0.0))
    ensures |data| >= 2 * Period(seasonPeriod) ==> forall i :: 0 <= i < horizon ==> forecast[i] >= 0.0
  {
    var m := Period(seasonPeriod);
    var components;
    smoothed, components := HoltWinters(p, data, m);
    if components.None? {
      var lastVal := if smoothed != [] then smoothed[|smoothed| - 1] else 0.0;
      forecast := seq(horizon, _ => Round2(lastVal));
      return;
    }
    forecast := ForecastFromComponents(components.value.levels, components.value.trends, components.value.seasons,
      |data|, m, horizon);
  }

  /** The forecast of a non-negative constant series is that constant on every day. */
  lemma HoltWintersForecastOfConstant(p: Params, data: seq<real>, m: nat, h: nat, c: real)
    requires 1 <= m && 2 * m <= |data| && h >= 1 && c >= 0.0
    requires forall i :: 0 <= i < |data| ==> data[i] == c
    ensures Max(HwForecastValue(HwTrace(p, data, m, |data|), |data|, m, h), 0.0) == c
  {
    var st := HwTrace(p, data, m, |data|);
    HoltWintersOfConstant(p, data, m, |data|, c);
    assert Last(st.levels) == c && Last(st.trends) == 0.0;
    assert st.seasons[ForecastSeasonIndex(|data|, m, h)] == 0.0;
  }

  // ---------------------------------------------------------------- mae / rmse / mape

  /** zip(actual, predicted), keeping only the days that have a prediction. */
  function Pairs(actual: seq<real>, predicted: seq<Option<real>>): (r: seq<(real, real)>)
    ensures |r| <= |actual| && |r| <= |predicted|
    decreases |actual|
  {
    if actual == [] || predicted == [] then []
    else (if predicted[0].Some? then [(actual[0], predicted[0].value)] else []) + Pairs(actual[1..], predicted[1..])
  }

  /** The pairs mape keeps: those whose actual value is not zero. */
  function NonZeroActual(pairs: seq<(real, real)>): (r: seq<(real, real)>)
    ensures |r| <= |pairs|
    ensures forall i :: 0 <= i < |r| ==> r[i].0 != 0.0 && r[i] in pairs
  {
    if pairs == [] then []
    else (if pairs[0].0 != 0.0 then [pairs[0]] else []) + NonZeroActual(pairs[1..])
  }

  function AbsErrors(pairs: seq<(real, real)>): (r: seq<real>)
    ensures |r| == |pairs| && forall i :: 0 <= i < |r| ==> r[i] >= 0.0
  {
    seq(|pairs|, i requires 0 <= i < |pairs| => Abs(pairs[i].0 - pairs[i].1))
  }

  function SquaredErrors(pairs: seq<(real, real)>): (r: seq<real>)
    ensures |r| == |pairs| && forall i :: 0 <= i < |r| ==> r[i] >= 0.0
  {
    seq(|pairs|, i requires 0 <= i < |pairs| => Square(pairs[i].0 - pairs[i].1))
  }

  function Square(x: real): (r: real)
    ensures r >= 0.0
  {
    if x >= 0.0 then x * x else (-x) * (-x)
  }

  function RelativeErrors(pairs: seq<(real, real)>): (r: seq<real>)
    requires forall i :: 0 <= i < |pairs| ==> pairs[i].0 != 0.0
    ensures |r| == |pairs| && forall i :: 0 <= i < |r| ==> r[i] >= 0.0
  {
    seq(|pairs|, i requires 0 <= i < |pairs| => Abs((pairs[i].0 - pairs[i].1) / pairs[i].0))
  }

  /** mae: the mean absolute error over the predicted days, 0 when there are none. */
  function Mae(actual: seq<real>, predicted: seq<Option<real>>): (r: real)
    ensures r >= 0.0
    ensures Pairs(actual, predicted) == [] ==> r == 0.0
  {
    var pairs := Pairs(actual, predicted);
    if pairs == [] then 0.0
    else
      SumNonNegative(AbsErrors(pairs));
      Round2(Sum(AbsErrors(pairs)) / |pairs| as real)
  }

  /** rmse: the square root of the mean squared error, 0 when there are no predicted days. */
  function Rmse(actual: seq<real>, predicted: seq<Option<real>>, sqrt: real -> real): (r: real)
    requires SqrtLaws(sqrt)
    ensures r >= 0.0
    ensures Pairs(actual, predicted) == [] ==> r == 0.0
  {
    var pairs := Pairs(actual, predicted);
    if pairs == [] then 0.0
    else
      SumNonNegative(SquaredErrors(pairs));
      Round2(sqrt(Sum(SquaredErrors(pairs)) / |pairs| as real))
  }

  /** mape: the mean absolute percentage error, in percent to 1 place, skipping zero actuals. */
  function Mape(actual: seq<real>, predicted: seq<Option<real>>): (r: real)
    ensures r >= 0.0
    ensures NonZeroActual(Pairs(actual, predicted)) == [] ==> r == 0.0
  {
    var pairs := NonZeroActual(Pairs(actual, predicted));
    if pairs == [] then 0.0
    else
      SumNonNegative(RelativeErrors(pairs));
      Round1(Sum(RelativeErrors(pairs)) / |pairs| as real * 100.0)
  }

  /** The predictions that are exactly the actual values. */
  function Exact(actual: seq<real>): (r: seq<Option<real>>)
    ensures |r| == |actual|
  {
    seq(|actual|, i requires 0 <= i < |actual| => Some(actual[i]))
  }

  lemma {:induction false} PairsOfExact(actual: seq<real>)
    ensures |Pairs(actual, Exact(actual))| == |actual|
    ensures forall i :: 0 <= i < |actual| ==> Pairs(actual, Exact(actual))[i] == (actual[i], actual[i])
    decreases |actual|
  {
    if actual != [] {
      assert Exact(actual)[1..] == Exact(actual[1..]);
      PairsOfExact(actual[1..]);
    }
  }

  lemma {:induction false} PairsOfNoPrediction(actual: seq<real>, predicted: seq<Option<real>>)
    requires forall i :: 0 <= i < |predicted| ==> predicted[i].None?
    ensures Pairs(actual, predicted) == []
    decreases |actual|
  {
    if actual != [] && predicted != [] {
      PairsOfNoPrediction(actual[1..], predicted[1..]);
    }
  }

  lemma MeanOfZeros(s: seq<real>)
    requires |s| > 0 && forall i :: 0 <= i < |s| ==> s[i] == 0.0
    ensures Sum(s) / |s| as real == 0.0
  {
    SumBounds(s, 0.0, 0.0);
  }

  /** A perfect prediction has mean absolute error 0. */
  lemma MaeOfExact(actual: seq<real>)
    ensures Mae(actual, Exact(actual)) == 0.0
  {
    var pairs := Pairs(actual, Exact(actual));
    PairsOfExact(actual);
    if pairs != [] {
      MeanOfZeros(AbsErrors(pairs));
      Round2Fixed(0);
    }
  }

  /** A perfect prediction has root mean square error 0. */
  lemma RmseOfExact(actual: seq<real>, sqrt: real -> real)
    requires SqrtLaws(sqrt)
    ensures Rmse(actual, Exact(actual), sqrt) == 0.0
  {
    var pairs := Pairs(actual, Exact(actual));
    PairsOfExact(actual);
    if pairs != [] {
      MeanOfZeros(SquaredErrors(pairs));
      Round2Fixed(0);
    }
  }

  /** A perfect prediction has mean absolute percentage error 0. */
  lemma MapeOfExact(actual: seq<real>)
    ensures Mape(actual, Exact(actual)) == 0.0
  {
    var pairs := Pairs(actual, Exact(actual));
    PairsOfExact(actual);
    var nz := NonZeroActual(pairs);
    if nz != [] {
      forall i | 0 <= i < |nz|
        ensures nz[i].0 == nz[i].1
      {
        assert nz[i] in pairs;
      }
      MeanOfZeros(RelativeErrors(nz));
      assert Round(0.0, 10) == 0.0;
    }
  }

  /** Days without a prediction do not count: with none at all every metric is 0. */
  lemma MetricsOfNoPrediction(actual: seq<real>, predicted: seq<Option<real>>, sqrt: real -> real)
    requires SqrtLaws(sqrt)
    requires forall i :: 0 <= i < |predicted| ==> predicted[i].None?
    ensures Mae(actual, predicted) == 0.0 && Rmse(actual, predicted, sqrt) == 0.0 && Mape(actual, predicted) == 0.0
  {
    PairsOfNoPrediction(actual, predicted);
  }

  // ---------------------------------------------------------------- get_daily_sales

  /** One day of the sales series: the day (as a day number), its revenue and its order count. */
  datatype DaySales = DaySales(day: int, revenue: real, orders: nat)

  /**
   * get_daily_sales: one entry per day from endDay - daysBack + 1 to endDay inclusive, taken
   * from the aggregated sales where the day has orders and zero otherwise. The aggregation
   * itself (a database query) is the `sales` map.
   */
  method GetDailySales(endDay: int, daysBack: int, sales: map<int, (real, nat)>) returns (r: seq<DaySales>)
    ensures |r| == if daysBack > 0 then daysBack else 0
    ensures forall i :: 0 <= i < |r| ==> r[i].day == endDay - daysBack + 1 + i
    ensures forall i :: 0 <= i < |r| ==>
      if r[i].day in sales then r[i].revenue == sales[r[i].day].0 && r[i].orders == sales[r[i].day].1
      else r[i].revenue == 0.0 && r[i].orders == 0
  {
    var startDay := endDay - (daysBack - 1);
    var current := startDay;
    r := [];
    while current <= endDay
      invariant current - startDay == |r| && (|r| > 0 ==> current <= endDay + 1)
      invariant forall i :: 0 <= i < |r| ==> r[i].day == startDay + i
      invariant forall i :: 0 <= i < |r| ==>
        if r[i].day in sales then r[i].revenue == sales[r[i].day].0 && r[i].orders == sales[r[i].day].1
        else r[i].revenue == 0.0 && r[i].orders == 0
      decreases endDay - current
    {
      var data := if current in sales then sales[current] else (0.0, 0);
      r := r + [DaySales(current, data.0, data.1)];
      current := current + 1;
    }
  }

  // ---------------------------------------------------------------- generate_forecast

  datatype Trend = Up | Down | Stable

  /** The summary trend: the last forecast day against the first. */
  function ForecastTrend(forecast: seq<real>): (t: Trend)
    requires |forecast| >= 1
    ensures t == Up <==> forecast[|forecast| - 1] > forecast[0]
    ensures t == Down <==> forecast[|forecast| - 1] < forecast[0]
    ensures t == Stable <==> forecast[|forecast| - 1] == forecast[0]
  {
    if Last(forecast) > forecast[0] then Up else if Last(forecast) < forecast[0] then Down else Stable
  }

  /** The number of days with sales. */
  function CountPositive(values: seq<real>): (k: nat)
    ensures k <= |values|
    ensures (forall i :: 0 <= i < |values| ==> values[i] <= 0.0) ==> k == 0
    ensures (forall i :: 0 <= i < |values| ==> values[i] > 0.0) ==> k == |values|
  {
    if values == [] then 0
    else CountPositive(values[..|values| - 1]) + (if Last(values) > 0.0 then 1 else 0)
  }

  datatype Summary = Summary(
    totalRevenue: real,
    avgDaily: real,
    daysWithSales: nat,
    totalDays: nat,
    forecastTotal: real,
    forecastAvgDaily: real,
    trend: Trend)

  function MakeSummary(values: seq<real>, hwForecast: seq<real>): (r: Summary)
    requires |values| >= 1 && |hwForecast| >= 1
    ensures r.totalDays == |values| && r.daysWithSales <= r.totalDays
    ensures r.trend == ForecastTrend(hwForecast)
  {
    var total := Sum(values);
    var forecastTotal := Sum(hwForecast);
    Summary(Round2(total), Round2(total / |values| as real), CountPositive(values), |values|,
      Round2(forecastTotal), Round2(forecastTotal / |hwForecast| as real), ForecastTrend(hwForecast))
  }

  datatype Metric = Revenue | Orders

  function MetricValue(d: DaySales, metric: Metric): real
  {
    if metric == Revenue then d.revenue else d.orders as real
  }

  datatype Errors = Errors(mae: real, rmse: real, mape: real)

  function ErrorsOf(actual: seq<real>, predicted: seq<Option<real>>, sqrt: real -> real): (e: Errors)
    requires SqrtLaws(sqrt)
    ensures e.mae >= 0.0 && e.rmse >= 0.0 && e.mape >= 0.0
  {
    Errors(Mae(actual, predicted), Rmse(actual, predicted, sqrt), Mape(actual, predicted))
  }

  datatype Report = Report(
    days: seq<int>,
    actual: seq<real>,
    hwSmoothed: seq<real>,
    hwForecast: seq<real>,
    maSmoothed: seq<Option<real>>,
    maForecast: seq<real>,
    forecastDays: seq<int>,
    metrics: Option<(Errors, Errors)>,
    summary: Option<Summary>)

  /**
   * generate_forecast over the daily series: the moving-average (window 7) and weekly
   * Holt-Winters smoothings and forecasts, the forecast days after the last observed day, both
   * models' errors on the history, and the summary. No days give the empty report.
   */
  method GenerateForecast(p: Params, daily: seq<DaySales>, metric: Metric, forecastDays: nat, sqrt: real -> real)
    returns (report: Report)
    requires SqrtLaws(sqrt)
    requires |daily| > 0 ==> forecastDays >= 1
    ensures daily == [] ==> report == Report([], [], [], [], [], [], [], None, None)
    ensures daily != [] ==>
      |report.days| == |report.actual| == |daily| == |report.hwSmoothed| == |report.maSmoothed| &&
      (forall i :: 0 <= i < |daily| ==> report.days[i] == daily[i].day && report.actual[i] == MetricValue(daily[i], metric)) &&
      |report.hwForecast| == forecastDays && report.maForecast == MovingAverageForecast(report.actual, 7, forecastDays) &&
      |report.forecastDays| == forecastDays &&
      (forall i :: 0 <= i < forecastDays ==> report.forecastDays[i] == daily[|daily| - 1].day + i + 1) &&
      report.metrics == Some((ErrorsOf(report.actual, report.maSmoothed, sqrt), ErrorsOf(report.actual, Exact(report.hwSmoothed), sqrt))) &&
      report.summary == Some(MakeSummary(report.actual, report.hwForecast))
    ensures 0 < |daily| < 7 ==> forall i :: 0 <= i < |daily| ==> report.maSmoothed[i] == Some(report.actual[i])
    ensures |daily| >= 7 ==>
      (forall i :: 0 <= i < 6 ==> report.maSmoothed[i] == None) &&
      forall i :: 6 <= i < |daily| ==> report.maSmoothed[i] == Some(Round2(WindowMean(report.actual, i, 7)))
    ensures 0 < |daily| < 14 ==>
      IsSes(p.alpha, report.actual, report.hwSmoothed) &&
      forall i :: 0 <= i < forecastDays ==> report.hwForecast[i] == Round2(Last(report.hwSmoothed))
    ensures |daily| >= 14 ==>
      var st := HwTrace(p, report.actual, 7, |daily|);
      report.hwSmoothed == st.smoothed &&
      (forall h :: 1 <= h <= forecastDays ==>
        report.hwForecast[h - 1] == Round2(Max(HwForecastValue(st, |daily|, 7, h), 0.0))) &&
      forall i :: 0 <= i < forecastDays ==> report.hwForecast[i] >= 0.0
  {
    if daily == [] {
      return Report([], [], [], [], [], [], [], None, None);
    }
    var values := seq(|daily|, i requires 0 <= i < |daily| => MetricValue(daily[i], metric));
    var days := seq(|daily|, i requires 0 <= i < |daily| => daily[i].day);
    var maWindow := 7;
    var maSmoothed := MovingAverage(values, maWindow);
    var maForecast := MovingAverageForecast(values, maWindow, forecastDays);
    var hwForecast, hwSmoothed := HoltWintersForecast(p, values, forecastDays, 7);
    var lastDay := daily[|daily| - 1].day;
    var forecastDates := seq(forecastDays, i => lastDay + i + 1);
    var metrics := (ErrorsOf(values, maSmoothed, sqrt), ErrorsOf(values, Exact(hwSmoothed), sqrt));
    var summary := MakeSummary(values, hwForecast);
    report := Report(days, values, hwSmoothed, hwForecast, maSmoothed, maForecast, forecastDates, Some(metrics), Some(summary));
  }
}

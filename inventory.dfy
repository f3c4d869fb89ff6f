// Inventory planning (analytics/inventory_service.py): per-product demand forecasts, safety
// stock, reorder points and recommended order quantities, and the summary over all products.
module Inventory {
  import opened Wrappers
  import opened Arith
  import opened RealMath
  import opened Forecasting
  import opened Sorting

  /** The Z-score table for the supported service levels (percent). */
  const ServiceLevelZ: map<int, real> := map[90 := 1.28, 95 := 1.645, 97 := 1.96, 99 := 2.33]

  /** SERVICE_LEVEL_Z.get(level, 1.645). */
  function ZScore(serviceLevel: int): (z: real)
    ensures serviceLevel in ServiceLevelZ ==> z == ServiceLevelZ[serviceLevel]
    ensures serviceLevel !in ServiceLevelZ ==> z == 1.645
  {
    if serviceLevel in ServiceLevelZ then ServiceLevelZ[serviceLevel] else 1.645
  }

  /** Every Z-score is positive, and a higher listed service level asks for a higher one. */
  lemma ZScoreMonotone(a: int, b: int)
    requires a in ServiceLevelZ && b in ServiceLevelZ && a < b
    ensures 0.0 < ZScore(a) < ZScore(b)
  {
  }

  lemma ZScorePositive(level: int)
    ensures ZScore(level) >= 1.28
  {
  }

  // ---------------------------------------------------------------- calculate_safety_stock

  function Deviations(s: seq<real>, mean: real): (r: seq<real>)
    ensures |r| == |s| && forall i :: 0 <= i < |r| ==> r[i] >= 0.0
  {
    seq(|s|, i requires 0 <= i < |s| => Square(s[i] - mean))
  }

  /** The n - 1 sample variance. */
  function SampleVariance(s: seq<real>): (v: real)
    requires |s| >= 2
    ensures v >= 0.0
  {
    var mean := Sum(s) / |s| as real;
    SumNonNegative(Deviations(s, mean));
    Sum(Deviations(s, mean)) / (|s| - 1) as real
  }

  /** The sample standard deviation. */
  function StdDev(demand: seq<real>, sqrt: real -> real): (s: real)
    requires |demand| >= 2 && SqrtLaws(sqrt)
    ensures s >= 0.0
  {
    sqrt(SampleVariance(demand))
  }

  /** z * s * sqrt(lead time), which is non-negative. */
  function Buffer(z: real, stdDev: real, root: real): (b: real)
    ensures z >= 0.0 && stdDev >= 0.0 && root >= 0.0 ==> b >= 0.0
  {
    assert z >= 0.0 && stdDev >= 0.0 ==> z * stdDev >= 0.0;
    z * stdDev * root
  }

  /**
   * calculate_safety_stock: (z * s * sqrt(lead time) to 1 place, s to 2 places) with s the
   * sample standard deviation; (0, 0) for fewer than two observations.
   */
  function SafetyStock(demand: seq<real>, leadTime: nat, serviceLevel: int, sqrt: real -> real): (r: (real, real))
    requires SqrtLaws(sqrt)
    ensures |demand| < 2 ==> r == (0.0, 0.0)
    ensures r.0 >= 0.0 && r.1 >= 0.0
    ensures |demand| >= 2 ==>
      r == (Round1(Buffer(ZScore(serviceLevel), StdDev(demand, sqrt), sqrt(leadTime as real))), Round2(StdDev(demand, sqrt)))
  {
    if |demand| < 2 then (0.0, 0.0)
    else
      var stdDev := StdDev(demand, sqrt);
      (Round1(Buffer(ZScore(serviceLevel), stdDev, sqrt(leadTime as real))), Round2(stdDev))
  }

  /** A demand that never varies needs no safety stock. */
  lemma SafetyStockOfConstant(demand: seq<real>, leadTime: nat, serviceLevel: int, sqrt: real -> real, c: real)
    requires SqrtLaws(sqrt)
    requires forall i :: 0 <= i < |demand| ==> demand[i] == c
    ensures SafetyStock(demand, leadTime, serviceLevel, sqrt) == (0.0, 0.0)
  {
    if |demand| >= 2 {
      MeanBounds(demand, c, c);
      var d := Deviations(demand, Sum(demand) / |demand| as real);
      SumBounds(d, 0.0, 0.0);
      assert SampleVariance(demand) == 0.0;
      Round2Fixed(0);
      assert Round(0.0, 10) == 0.0;
    }
  }

  // ---------------------------------------------------------------- calculate_reorder_point

  /** calculate_reorder_point: demand over the lead time plus the safety stock, to 1 place. */
  function ReorderPoint(avgDailyDemand: real, leadTime: nat, safetyStock: real): (r: real)
    ensures avgDailyDemand >= 0.0 && safetyStock >= 0.0 ==> r >= 0.0
    ensures -0.05 <= avgDailyDemand * leadTime as real + safetyStock - r <= 0.05
  {
    assert avgDailyDemand >= 0.0 ==> avgDailyDemand * leadTime as real >= 0.0;
    Round1(avgDailyDemand * leadTime as real + safetyStock)
  }

  /** math.ceil. */
  function Ceil(x: real): (k: int)
    ensures x <= k as real < x + 1.0
  {
    -((-x).Floor)
  }

  // ---------------------------------------------------------------- forecast_product_demand

  datatype ForecastMethod = NoData | HoltWintersMethod | MovingAverageMethod

  datatype DemandForecast = DemandForecast(
    forecast: seq<real>,
    smoothed: seq<Option<real>>,
    forecastMethod: ForecastMethod,
    metrics: Option<Errors>)

  predicate AllZero(values: seq<real>)
  {
    forall i :: 0 <= i < |values| ==> values[i] == 0.0
  }

  /** max(0, v) on every value. */
  function ClampAtZero(values: seq<real>): (r: seq<real>)
    ensures |r| == |values|
    ensures forall i :: 0 <= i < |r| ==> r[i] == Max(values[i], 0.0) && r[i] >= 0.0
  {
    seq(|values|, i requires 0 <= i < |values| => Max(values[i], 0.0))
  }

  /**
   * What forecast_product_demand promises: zeros for an empty or all-zero history; weekly
   * Holt-Winters for at least two weeks of history; otherwise the 7-day moving average, whose
   * smoothed series is the data itself under a week and six gaps followed by the rounded 7-day
   * means from then on. Every forecast value is clamped at zero, and the metrics compare the
   * data with the method's own smoothed series.
   */
  ghost predicate IsDemandForecast(p: Params, values: seq<real>, forecastDays: nat, sqrt: real -> real, r: DemandForecast)
    requires SqrtLaws(sqrt)
  {
    |r.forecast| == forecastDays &&
    (forall i :: 0 <= i < |r.forecast| ==> r.forecast[i] >= 0.0) &&
    (r.forecastMethod == NoData <==> values == [] || AllZero(values)) &&
    (r.forecastMethod == HoltWintersMethod <==> !AllZero(values) && |values| >= 2 * SeasonPeriod) &&
    (r.forecastMethod == NoData ==> r.forecast == seq(forecastDays, _ => 0.0) && r.smoothed == [] && r.metrics == None) &&
    (r.forecastMethod == HoltWintersMethod ==>
      var st := HwTrace(p, values, SeasonPeriod, |values|);
      r.smoothed == Exact(st.smoothed) &&
      (forall h :: 1 <= h <= forecastDays ==>
        r.forecast[h - 1] == Round2(Max(HwForecastValue(st, |values|, SeasonPeriod, h), 0.0))) &&
      r.metrics == Some(ErrorsOf(values, r.smoothed, sqrt))) &&
    (r.forecastMethod == MovingAverageMethod ==>
      r.forecast == ClampAtZero(MovingAverageForecast(values, 7, forecastDays)) &&
      |r.smoothed| == |values| && r.metrics == Some(ErrorsOf(values, r.smoothed, sqrt)) &&
      (|values| < 7 ==> forall i :: 0 <= i < |values| ==> r.smoothed[i] == Some(values[i])) &&
      (|values| >= 7 ==> forall i :: 0 <= i < 6 ==> r.smoothed[i] == None) &&
      (|values| >= 7 ==> forall i :: 6 <= i < |values| ==> r.smoothed[i] == Some(Round2(WindowMean(values, i, 7)))))
  }

  /** forecast_product_demand. */
  method ForecastProductDemand(p: Params, values: seq<real>, forecastDays: nat, sqrt: real -> real)
    returns (r: DemandForecast)
    requires SqrtLaws(sqrt)
    ensures IsDemandForecast(p, values, forecastDays, sqrt, r)
  {
    if values == [] || AllZero(values) {
      return DemandForecast(seq(forecastDays, _ => 0.0), [], NoData, None);
    }
    var minHwData := 2 * SeasonPeriod;
    if |values| >= minHwData {
      var hwForecast, hwSmoothed := HoltWintersForecast(p, values, forecastDays, 0);
      hwForecast := ClampAtZero(hwForecast);
      var smoothed := Exact(hwSmoothed);
      return DemandForecast(hwForecast, smoothed, HoltWintersMethod, Some(ErrorsOf(values, smoothed, sqrt)));
    }
    var maSmoothed := MovingAverage(values, 7);
    var maForecast := MovingAverageForecast(values, 7, forecastDays);
    maForecast := ClampAtZero(maForecast);
    r := DemandForecast(maForecast, maSmoothed, MovingAverageMethod, Some(ErrorsOf(values, maSmoothed, sqrt)));
  }

  /** A product that has always sold the same positive amount daily for two weeks or more is forecast at that amount. */
  lemma DemandForecastOfConstant(p: Params, values: seq<real>, forecastDays: nat, sqrt: real -> real, r: DemandForecast, c: real)
    requires SqrtLaws(sqrt) && IsDemandForecast(p, values, forecastDays, sqrt, r)
    requires |values| >= 2 * SeasonPeriod && c > 0.0
    requires forall i :: 0 <= i < |values| ==> values[i] == c
    ensures r.forecastMethod == HoltWintersMethod
    ensures forall i :: 0 <= i < forecastDays ==> r.forecast[i] == Round2(c)
  {
    assert values[0] == c;
    assert r.forecastMethod == HoltWintersMethod;
    ConstantForecastEntries(p, values, r.forecast, c);
  }

  /** Forecast entries taken from the Holt-Winters forecast of a constant series are that constant, rounded. */
  lemma ConstantForecastEntries(p: Params, values: seq<real>, forecast: seq<real>, c: real)
    requires |values| >= 2 * SeasonPeriod && c > 0.0
    requires forall i :: 0 <= i < |values| ==> values[i] == c
    requires forall h :: 1 <= h <= |forecast| ==>
      forecast[h - 1] == Round2(Max(HwForecastValue(HwTrace(p, values, SeasonPeriod, |values|), |values|, SeasonPeriod, h), 0.0))
    ensures forall i :: 0 <= i < |forecast| ==> forecast[i] == Round2(c)
  {
    forall i | 0 <= i < |forecast|
      ensures forecast[i] == Round2(c)
    {
      assert forecast[i] == Round2(Max(HwForecastValue(HwTrace(p, values, SeasonPeriod, |values|), |values|, SeasonPeriod, i + 1), 0.0));
      HoltWintersForecastOfConstant(p, values, SeasonPeriod, i + 1, c);
    }
  }

  // ---------------------------------------------------------------- trend and demand pattern

  datatype DemandTrend = Growing | Declining | Steady

  /** The forecast trend: growing above +5 %, declining below -5 %, otherwise (or with under two points) stable. */
  function DemandTrendOf(forecast: seq<real>): (t: DemandTrend)
    ensures |forecast| < 2 ==> t == Steady
    ensures |forecast| >= 2 ==> (t == Growing <==> Last(forecast) > forecast[0] * 1.05)
  {
    if |forecast| >= 2 then
      if Last(forecast) > forecast[0] * 1.05 then Growing
      else if Last(forecast) < forecast[0] * 0.95 then Declining
      else Steady
    else Steady
  }

  /**
   * For a non-negative first point the two thresholds cannot both hold, so the classes are
   * exactly: above +5 %, below -5 %, and the band between.
   */
  lemma DemandTrendDeadband(forecast: seq<real>)
    requires |forecast| >= 2 && forecast[0] >= 0.0
    ensures DemandTrendOf(forecast) == Growing <==> Last(forecast) > forecast[0] * 1.05
    ensures DemandTrendOf(forecast) == Declining <==> Last(forecast) < forecast[0] * 0.95
    ensures DemandTrendOf(forecast) == Steady <==>
      forecast[0] * 0.95 <= Last(forecast) <= forecast[0] * 1.05
  {
    assert forecast[0] * 0.95 <= forecast[0] * 1.05;
  }

  datatype DemandPattern = StablePattern | Variable | HighlyVariable

  /** CV = std / avg to 2 places, 0 without demand. */
  function Cv(demandStd: real, avgDaily: real): (cv: real)
    ensures avgDaily <= 0.0 ==> cv == 0.0
    ensures avgDaily > 0.0 && demandStd >= 0.0 ==> cv >= 0.0
  {
    if avgDaily > 0.0 then Round2(demandStd / avgDaily) else 0.0
  }

  function PatternOf(cv: real): DemandPattern
  {
    if cv < 0.5 then StablePattern else if cv < 1.0 then Variable else HighlyVariable
  }

  function PatternRank(d: DemandPattern): nat
  {
    match d
    case StablePattern => 0
    case Variable => 1
    case HighlyVariable => 2
  }

  /** More relative variability never gives a steadier class; no variability is stable. */
  lemma PatternMonotone(cv1: real, cv2: real)
    requires cv1 <= cv2
    ensures PatternRank(PatternOf(cv1)) <= PatternRank(PatternOf(cv2))
    ensures PatternOf(0.0) == StablePattern
  {
  }

  // ---------------------------------------------------------------- get_product_daily_demand

  /**
   * get_product_daily_demand: the days endDay - daysBack + 1 .. endDay and, for each, the
   * quantity sold that day (zero for days without sales). The per-day totals (a database
   * aggregation) are the `sales` map.
   */
  method ProductDailyDemand(endDay: int, daysBack: int, sales: map<int, nat>) returns (days: seq<int>, values: seq<real>)
    ensures |days| == |values| == if daysBack > 0 then daysBack else 0
    ensures forall i :: 0 <= i < |days| ==> days[i] == endDay - daysBack + 1 + i
    ensures forall i :: 0 <= i < |values| ==>
      values[i] == if days[i] in sales then sales[days[i]] as real else 0.0
  {
    var startDay := endDay - (daysBack - 1);
    var current := startDay;
    days, values := [], [];
    while current <= endDay
      invariant current - startDay == |days| == |values| && (|days| > 0 ==> current <= endDay + 1)
      invariant forall i :: 0 <= i < |days| ==> days[i] == startDay + i
      invariant forall i :: 0 <= i < |values| ==>
        values[i] == if days[i] in sales then sales[days[i]] as real else 0.0
      decreases endDay - current
    {
      days := days + [current];
      values := values + [if current in sales then sales[current] as real else 0.0];
      current := current + 1;
    }
  }

  // ---------------------------------------------------------------- get_all_products_demand

  /** One aggregated row of sold products: product id (None once the product is deleted), name, units. */
  datatype SoldRow = SoldRow(productId: Option<int>, productName: string, totalSold: int)

  datatype ProductDemand = ProductDemand(productId: int, name: string, totalSold: int, days: seq<int>, values: seq<real>)

  predicate DistinctIds(d: seq<ProductDemand>)
  {
    forall i, j :: 0 <= i < j < |d| ==> d[i].productId != d[j].productId
  }

  /** The entry for `pid` is made from row k, and no later row of the first n names that product. */
  predicate FromLastRow(rows: seq<SoldRow>, n: nat, e: ProductDemand, k: nat)
    requires n <= |rows|
  {
    k < n && rows[k].productId == Some(e.productId) &&
    e.name == rows[k].productName && e.totalSold == rows[k].totalSold &&
    forall k' :: k < k' < n ==> rows[k'].productId != Some(e.productId)
  }

  /** The entry's series is the product's zero-filled daily demand over the period. */
  predicate IsDailyDemand(e: ProductDemand, endDay: int, daysBack: int, sales: map<int, map<int, nat>>)
  {
    |e.values| == |e.days| == (if daysBack > 0 then daysBack else 0) &&
    (forall t :: 0 <= t < |e.days| ==> e.days[t] == endDay - daysBack + 1 + t) &&
    forall t :: 0 <= t < |e.values| ==>
      e.values[t] == if e.productId in sales && e.days[t] in sales[e.productId] then sales[e.productId][e.days[t]] as real else 0.0
  }

  /** The entry is made from the last row naming its product. */
  ghost predicate FromSomeLastRow(rows: seq<SoldRow>, e: ProductDemand)
  {
    exists k: nat :: FromLastRow(rows, |rows|, e, k)
  }

  function ProductIds(d: seq<ProductDemand>): set<int>
  {
    set i | 0 <= i < |d| :: d[i].productId
  }

  /** The product ids named by the first n rows. */
  function RowIds(rows: seq<SoldRow>, n: nat): set<int>
    requires n <= |rows|
  {
    set k | 0 <= k < n && rows[k].productId.Some? :: rows[k].productId.value
  }

  /**
   * get_all_products_demand: a dictionary keyed by product id over the rows with a product,
   * later rows for the same id replacing the entry in place, each entry carrying that
   * product's zero-filled daily demand.
   */
  method AllProductsDemand(endDay: int, daysBack: int, rows: seq<SoldRow>, sales: map<int, map<int, nat>>)
    returns (result: seq<ProductDemand>)
    ensures DistinctIds(result)
    ensures ProductIds(result) == RowIds(rows, |rows|)
    ensures forall i :: 0 <= i < |result| ==> FromSomeLastRow(rows, result[i])
    ensures forall i :: 0 <= i < |result| ==> IsDailyDemand(result[i], endDay, daysBack, sales)
  {
    result := [];
    ghost var source: seq<nat> := [];
    var n := 0;
    while n < |rows|
      invariant 0 <= n <= |rows|
      invariant Built(rows, n, result, source, endDay, daysBack, sales)
    {
      var row := rows[n];
      if row.productId.Some? {
        var pid := row.productId.value;
        var productSales := if pid in sales then sales[pid] else map[];
        var days, values := ProductDailyDemand(endDay, daysBack, productSales);
        var entry := ProductDemand(pid, row.productName, row.totalSold, days, values);
        assert IsDailyDemand(entry, endDay, daysBack, sales);
        var j := IndexOf(result, pid);
        if j < |result| {
          ReplaceKeepsBuilt(rows, n, result, source, entry, j, endDay, daysBack, sales);
          result := result[j := entry];
          source := source[j := n];
        } else {
          AppendKeepsBuilt(rows, n, result, source, entry, endDay, daysBack, sales);
          result := result + [entry];
          source := source + [n];
        }
      } else {
        SkipKeepsBuilt(rows, n, result, source, endDay, daysBack, sales);
      }
      n := n + 1;
    }
    forall i | 0 <= i < |result|
      ensures FromSomeLastRow(rows, result[i])
    {
      assert FromLastRow(rows, |rows|, result[i], source[i]);
    }
  }

  /**
   * The loop invariant of AllProductsDemand after n rows: distinct ids, exactly the ids of those
   * rows, each entry made from the last of them naming its product (source[i] is that row), and
   * each carrying its daily demand.
   */
  ghost predicate Built(rows: seq<SoldRow>, n: nat, result: seq<ProductDemand>, source: seq<nat>,
                        endDay: int, daysBack: int, sales: map<int, map<int, nat>>)
    requires n <= |rows|
  {
    |source| == |result| && DistinctIds(result) && ProductIds(result) == RowIds(rows, n) &&
    (forall i :: 0 <= i < |result| ==> FromLastRow(rows, n, result[i], source[i])) &&
    forall i :: 0 <= i < |result| ==> IsDailyDemand(result[i], endDay, daysBack, sales)
  }

  /** A row without a product leaves the dictionary as it was. */
  lemma SkipKeepsBuilt(rows: seq<SoldRow>, n: nat, result: seq<ProductDemand>, source: seq<nat>,
                       endDay: int, daysBack: int, sales: map<int, map<int, nat>>)
    requires n < |rows| && rows[n].productId.None?
    requires Built(rows, n, result, source, endDay, daysBack, sales)
    ensures Built(rows, n + 1, result, source, endDay, daysBack, sales)
  {
    assert RowIds(rows, n + 1) == RowIds(rows, n);
    forall i | 0 <= i < |result|
      ensures FromLastRow(rows, n + 1, result[i], source[i])
    {
      assert FromLastRow(rows, n, result[i], source[i]);
    }
  }

  /** A row for a product already present replaces that product's entry in place. */
  lemma ReplaceKeepsBuilt(rows: seq<SoldRow>, n: nat, result: seq<ProductDemand>, source: seq<nat>,
                          entry: ProductDemand, j: nat, endDay: int, daysBack: int, sales: map<int, map<int, nat>>)
    requires n < |rows| && rows[n].productId == Some(entry.productId)
    requires entry.name == rows[n].productName && entry.totalSold == rows[n].totalSold
    requires IsDailyDemand(entry, endDay, daysBack, sales)
    requires Built(rows, n, result, source, endDay, daysBack, sales)
    requires j < |result| && result[j].productId == entry.productId
    ensures Built(rows, n + 1, result[j := entry], source[j := n], endDay, daysBack, sales)
  {
    var r := result[j := entry];
    assert ProductIds(r) == ProductIds(result) by {
      assert forall i :: 0 <= i < |r| ==> r[i].productId == result[i].productId;
    }
    assert RowIds(rows, n + 1) == RowIds(rows, n) + {entry.productId} by {
      assert rows[n].productId.value == entry.productId;
    }
    forall i | 0 <= i < |r| && i != j
      ensures FromLastRow(rows, n + 1, r[i], source[i])
    {
      assert FromLastRow(rows, n, result[i], source[i]);
      assert result[i].productId != result[j].productId;
    }
  }

  /** A row for a new product appends its entry. */
  lemma AppendKeepsBuilt(rows: seq<SoldRow>, n: nat, result: seq<ProductDemand>, source: seq<nat>,
                         entry: ProductDemand, endDay: int, daysBack: int, sales: map<int, map<int, nat>>)
    requires n < |rows| && rows[n].productId == Some(entry.productId)
    requires entry.name == rows[n].productName && entry.totalSold == rows[n].totalSold
    requires IsDailyDemand(entry, endDay, daysBack, sales)
    requires Built(rows, n, result, source, endDay, daysBack, sales)
    requires forall i :: 0 <= i < |result| ==> result[i].productId != entry.productId
    ensures Built(rows, n + 1, result + [entry], source + [n], endDay, daysBack, sales)
  {
    var r := result + [entry];
    assert ProductIds(r) == ProductIds(result) + {entry.productId} by {
      assert forall i :: 0 <= i < |result| ==> r[i].productId == result[i].productId;
      assert r[|result|].productId == entry.productId;
    }
    assert RowIds(rows, n + 1) == RowIds(rows, n) + {entry.productId} by {
      assert rows[n].productId.value == entry.productId;
    }
    forall i | 0 <= i < |result|
      ensures FromLastRow(rows, n + 1, r[i], (source + [n])[i])
    {
      assert FromLastRow(rows, n, result[i], source[i]);
    }
  }

  /** The position of the entry for `pid`, or |d| when there is none. */
  function IndexOf(d: seq<ProductDemand>, pid: int): (j: nat)
    ensures j <= |d|
    ensures j < |d| ==> d[j].productId == pid
    ensures j == |d| ==> forall i :: 0 <= i < |d| ==> d[i].productId != pid
  {
    if d == [] then 0
    else if d[0].productId == pid then 0
    else 1 + IndexOf(d[1..], pid)
  }

  // ---------------------------------------------------------------- generate_inventory_forecast

  /** Inventory planning inputs. */
  datatype PlanParams = PlanParams(forecastDays: nat, leadTime: nat, serviceLevel: int)

  datatype ProductAnalysis = ProductAnalysis(
    productId: int,
    productName: string,
    totalSold: int,
    avgDailyDemand: real,
    maxDailyDemand: real,
    demandStd: real,
    daysWithSales: nat,
    totalDays: nat,
    cv: real,
    pattern: DemandPattern,
    forecast: seq<real>,
    forecastTotal: real,
    forecastAvgDaily: real,
    forecastMethod: ForecastMethod,
    metrics: Option<Errors>,
    trend: DemandTrend,
    safetyStock: real,
    reorderPoint: real,
    recommendedOrderQty: int,
    days: seq<int>,
    history: seq<real>,
    smoothed: seq<Option<real>>)

  /** max(values), 0 for no values. */
  function MaxOf(values: seq<real>): (m: real)
    ensures forall i :: 0 <= i < |values| ==> values[i] <= m
    ensures values == [] ==> m == 0.0
    ensures values != [] ==> exists i :: 0 <= i < |values| && values[i] == m
  {
    if values == [] then 0.0
    else if |values| == 1 then values[0]
    else
      var rest := MaxOf(values[..|values| - 1]);
      assert forall i :: 0 <= i < |values| - 1 ==> values[..|values| - 1][i] == values[i];
      Max(rest, Last(values))
  }

  /** The average daily demand, 0 for no history. */
  function AvgDaily(values: seq<real>): real
  {
    if values == [] then 0.0 else Sum(values) / |values| as real
  }

  /** The recommended order quantity: the forecast total plus the safety stock, rounded up. */
  function RecommendedOrderQty(forecast: seq<real>, safetyStock: real): (q: int)
    ensures Sum(forecast) + safetyStock <= q as real < Sum(forecast) + safetyStock + 1.0
  {
    Ceil(Sum(forecast) + safetyStock)
  }

  /** A non-negative forecast and safety stock never recommend ordering a negative amount. */
  lemma RecommendedOrderQtyCoversForecast(forecast: seq<real>, safetyStock: real)
    requires forall i :: 0 <= i < |forecast| ==> forecast[i] >= 0.0
    requires safetyStock >= 0.0
    ensures RecommendedOrderQty(forecast, safetyStock) >= 0
    ensures RecommendedOrderQty(forecast, safetyStock) as real >= Sum(forecast)
  {
    SumNonNegative(forecast);
  }

  /** The analysis of one product built from its demand history and its demand forecast. */
  function AnalysisFrom(plan: PlanParams, d: ProductDemand, fc: DemandForecast, sqrt: real -> real): (a: ProductAnalysis)
    requires SqrtLaws(sqrt)
    requires forall i :: 0 <= i < |fc.forecast| ==> fc.forecast[i] >= 0.0
    ensures a.productId == d.productId && a.productName == d.name && a.totalSold == d.totalSold
    ensures a.days == d.days && a.history == d.values && a.totalDays == |d.values| && a.smoothed == fc.smoothed
    ensures a.daysWithSales <= a.totalDays
    ensures forall i :: 0 <= i < |d.values| ==> d.values[i] <= a.maxDailyDemand
    ensures a.safetyStock >= 0.0 && a.demandStd >= 0.0
    ensures (a.safetyStock, a.demandStd) == SafetyStock(d.values, plan.leadTime, plan.serviceLevel, sqrt)
    ensures a.reorderPoint == ReorderPoint(AvgDaily(d.values), plan.leadTime, a.safetyStock)
    ensures a.cv == Cv(a.demandStd, AvgDaily(d.values)) && a.pattern == PatternOf(a.cv)
    ensures |a.forecast| == |fc.forecast|
    ensures forall i :: 0 <= i < |a.forecast| ==> a.forecast[i] >= 0.0 && -0.05 <= fc.forecast[i] - a.forecast[i] <= 0.05
    ensures a.trend == DemandTrendOf(fc.forecast) && a.forecastMethod == fc.forecastMethod && a.metrics == fc.metrics
    ensures a.recommendedOrderQty >= 0 && a.recommendedOrderQty as real >= Sum(fc.forecast) + a.safetyStock
    ensures a.forecastAvgDaily == if plan.forecastDays == 0 then 0.0 else Round2(Sum(fc.forecast) / plan.forecastDays as real)
  {
    var values := d.values;
    var avgDaily := AvgDaily(values);
    var forecast := fc.forecast;
    var (safetyStock, demandStd) := SafetyStock(values, plan.leadTime, plan.serviceLevel, sqrt);
    var forecastTotalDemand := Sum(forecast);
    RecommendedOrderQtyCoversForecast(forecast, safetyStock);
    var cv := Cv(demandStd, avgDaily);
    ProductAnalysis(d.productId, d.name, d.totalSold, Round2(avgDaily), MaxOf(values), demandStd,
      CountPositive(values), |values|, cv, PatternOf(cv),
      seq(|forecast|, i requires 0 <= i < |forecast| => Round1(forecast[i])), Round1(forecastTotalDemand),
      if plan.forecastDays == 0 then 0.0 else Round2(forecastTotalDemand / plan.forecastDays as real),
      fc.forecastMethod, fc.metrics, DemandTrendOf(forecast), safetyStock, ReorderPoint(avgDaily, plan.leadTime, safetyStock),
      RecommendedOrderQty(forecast, safetyStock), d.days, values, fc.smoothed)
  }

  /** One iteration of generate_inventory_forecast's product loop. */
  method AnalyzeProduct(p: Params, plan: PlanParams, d: ProductDemand, sqrt: real -> real)
    returns (a: ProductAnalysis)
    requires SqrtLaws(sqrt)
    ensures exists fc :: IsDemandForecast(p, d.values, plan.forecastDays, sqrt, fc) && a == AnalysisFrom(plan, d, fc, sqrt)
  {
    var fc := ForecastProductDemand(p, d.values, plan.forecastDays, sqrt);
    a := AnalysisFrom(plan, d, fc, sqrt);
  }

  /** Whether `a` is the analysis generate_inventory_forecast makes for product `d`. */
  ghost predicate IsAnalysisOf(p: Params, plan: PlanParams, d: ProductDemand, sqrt: real -> real, a: ProductAnalysis)
    requires SqrtLaws(sqrt)
  {
    exists fc :: IsDemandForecast(p, d.values, plan.forecastDays, sqrt, fc) && a == AnalysisFrom(plan, d, fc, sqrt)
  }

  /** Some entry of `analysis` is the analysis of product `d`. */
  ghost predicate IsAnalysedIn(p: Params, plan: PlanParams, d: ProductDemand, sqrt: real -> real, analysis: seq<ProductAnalysis>)
    requires SqrtLaws(sqrt)
  {
    exists i :: 0 <= i < |analysis| && IsAnalysisOf(p, plan, d, sqrt, analysis[i])
  }

  /** `a` is the analysis of one of the products. */
  ghost predicate IsAnalysisOfOne(p: Params, plan: PlanParams, products: seq<ProductDemand>, sqrt: real -> real, a: ProductAnalysis)
    requires SqrtLaws(sqrt)
  {
    exists j :: 0 <= j < |products| && IsAnalysisOf(p, plan, products[j], sqrt, a)
  }

  // ---------------------------------------------------------------- sort by total sold, descending

  /** The sort key of products_analysis. */
  function TotalSoldKey(a: ProductAnalysis): real
  {
    a.totalSold as real
  }

  // ---------------------------------------------------------------- summary

  datatype InventorySummary =
    | NoSalesData
    | Totals(totalProducts: nat, totalRecommendedUnits: int, growingProducts: nat,
             decliningProducts: nat, stableProducts: int, avgSafetyStock: real)

  function CountTrend(s: seq<ProductAnalysis>, t: DemandTrend): (k: nat)
    ensures k <= |s|
  {
    if s == [] then 0 else CountTrend(s[..|s| - 1], t) + (if s[|s| - 1].trend == t then 1 else 0)
  }

  function TotalRecommended(s: seq<ProductAnalysis>): int
  {
    if s == [] then 0 else TotalRecommended(s[..|s| - 1]) + s[|s| - 1].recommendedOrderQty
  }

  function SafetyStocks(s: seq<ProductAnalysis>): (r: seq<real>)
    ensures |r| == |s|
  {
    seq(|s|, i requires 0 <= i < |s| => s[i].safetyStock)
  }

  /** Every product is growing, declining or stable. */
  lemma {:induction false} CountTrendPartition(s: seq<ProductAnalysis>)
    ensures CountTrend(s, Growing) + CountTrend(s, Declining) + CountTrend(s, Steady) == |s|
  {
    if s != [] {
      CountTrendPartition(s[..|s| - 1]);
    }
  }

  /** The summary of generate_inventory_forecast; no products give the "no sales data" summary. */
  function MakeInventorySummary(s: seq<ProductAnalysis>): (r: InventorySummary)
    ensures s == [] <==> r == NoSalesData
    ensures r.Totals? ==>
      r.totalProducts == |s| && r.growingProducts == CountTrend(s, Growing) &&
      r.decliningProducts == CountTrend(s, Declining) && r.stableProducts == CountTrend(s, Steady) &&
      r.growingProducts + r.decliningProducts + r.stableProducts == r.totalProducts
  {
    if s == [] then NoSalesData
    else
      var growing := CountTrend(s, Growing);
      var declining := CountTrend(s, Declining);
      CountTrendPartition(s);
      Totals(|s|, TotalRecommended(s), growing, declining, |s| - growing - declining,
        Round1(Sum(SafetyStocks(s)) / |s| as real))
  }

  /** Non-negative recommendations and safety stocks give non-negative totals. */
  lemma {:induction false} SummaryNonNegative(s: seq<ProductAnalysis>)
    requires forall i :: 0 <= i < |s| ==> s[i].recommendedOrderQty >= 0 && s[i].safetyStock >= 0.0
    ensures TotalRecommended(s) >= 0
    ensures MakeInventorySummary(s).Totals? ==> MakeInventorySummary(s).avgSafetyStock >= 0.0
  {
    if s != [] {
      SummaryNonNegative(s[..|s| - 1]);
      SumNonNegative(SafetyStocks(s));
    }
  }

  /** The product loop of generate_inventory_forecast: one analysis per product, in order. */
  method AnalyzeAll(p: Params, plan: PlanParams, products: seq<ProductDemand>, sqrt: real -> real)
    returns (unsorted: seq<ProductAnalysis>)
    requires SqrtLaws(sqrt)
    ensures |unsorted| == |products|
    ensures forall j :: 0 <= j < |products| ==> IsAnalysisOf(p, plan, products[j], sqrt, unsorted[j])
  {
    unsorted := [];
    for n := 0 to |products|
      invariant |unsorted| == n
      invariant forall j :: 0 <= j < n ==> IsAnalysisOf(p, plan, products[j], sqrt, unsorted[j])
    {
      var a := AnalyzeProduct(p, plan, products[n], sqrt);
      unsorted := unsorted + [a];
    }
  }

  /**
   * generate_inventory_forecast over the products' demand: the analysis of every product,
   * ordered by units sold (most first), and the summary.
   */
  method GenerateInventoryForecast(p: Params, plan: PlanParams, products: seq<ProductDemand>, sqrt: real -> real)
    returns (analysis: seq<ProductAnalysis>, summary: InventorySummary)
    requires SqrtLaws(sqrt)
    ensures |analysis| == |products|
    ensures SortedDescBy(analysis, TotalSoldKey)
    ensures forall j :: 0 <= j < |products| ==> IsAnalysedIn(p, plan, products[j], sqrt, analysis)
    ensures forall i :: 0 <= i < |analysis| ==> IsAnalysisOfOne(p, plan, products, sqrt, analysis[i])
    ensures summary == MakeInventorySummary(analysis)
    ensures products == [] <==> summary == NoSalesData
  {
    if products == [] {
      return [], NoSalesData;
    }
    var unsorted := AnalyzeAll(p, plan, products, sqrt);
    analysis := SortDescBy(unsorted, TotalSoldKey);
    PermutedAnalyses(p, plan, products, sqrt, unsorted, analysis);
    summary := MakeInventorySummary(analysis);
  }

  /** Reordering the analyses keeps every product's analysis and adds none. */
  lemma PermutedAnalyses(p: Params, plan: PlanParams, products: seq<ProductDemand>, sqrt: real -> real,
                         unsorted: seq<ProductAnalysis>, analysis: seq<ProductAnalysis>)
    requires SqrtLaws(sqrt)
    requires |unsorted| == |products| && multiset(analysis) == multiset(unsorted)
    requires forall j :: 0 <= j < |products| ==> IsAnalysisOf(p, plan, products[j], sqrt, unsorted[j])
    ensures forall j :: 0 <= j < |products| ==> IsAnalysedIn(p, plan, products[j], sqrt, analysis)
    ensures forall i :: 0 <= i < |analysis| ==> IsAnalysisOfOne(p, plan, products, sqrt, analysis[i])
  {
    SameElements(unsorted, analysis);
    SameElements(analysis, unsorted);
    forall j | 0 <= j < |products|
      ensures IsAnalysedIn(p, plan, products[j], sqrt, analysis)
    {
      var i :| 0 <= i < |analysis| && analysis[i] == unsorted[j];
      assert IsAnalysisOf(p, plan, products[j], sqrt, analysis[i]);
    }
    forall i | 0 <= i < |analysis|
      ensures IsAnalysisOfOne(p, plan, products, sqrt, analysis[i])
    {
      var j :| 0 <= j < |unsorted| && unsorted[j] == analysis[i];
      assert IsAnalysisOf(p, plan, products[j], sqrt, analysis[i]);
    }
  }
}

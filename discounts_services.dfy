// discounts/services.py: the personal-discount engine (DiscountCalculator) and the
// discount-curve sampler.
//
// Scores are thousandths (0.735 is 735); percents are hundredths of a percent; money is
// cents. Decimal's ROUND_HALF_UP quantisation is Arith.DivHalfUp / Arith.RoundHalfUp.
module DiscountService {
  import opened Wrappers
  import opened Arith
  import opened RealMath
  import opened Calendar
  import opened Text
  import opened DiscountModels

  // ---------------------------------------------------------------- scores

  /**
   * Recency R: 0 without a last order or once recency_max_days have passed; otherwise
   * 1 - days/max_days rounded half-up to three decimals.
   */
  function RecencyScore(s: DiscountSettings, daysSince: Option<nat>): (r: int)
    ensures 0 <= r <= 1000
    ensures daysSince.None? || daysSince.value >= s.recencyMaxDays ==> r == 0
    ensures daysSince.Some? && daysSince.value < s.recencyMaxDays ==>
      IsHalfUpQuotient(1000 * (s.recencyMaxDays - daysSince.value), s.recencyMaxDays, r)
  {
    match daysSince
    case None => 0
    case Some(d) =>
      if d >= s.recencyMaxDays then 0
      else
        var m := s.recencyMaxDays;
        ThousandthsOfFraction(m - d, m);
        DivHalfUp(1000 * (m - d), m)
  }

  /** R never grows as the last order gets older. */
  lemma RecencyNonIncreasing(s: DiscountSettings, d1: nat, d2: nat)
    requires d1 <= d2
    ensures RecencyScore(s, Some(d2)) <= RecencyScore(s, Some(d1))
  {
    var m := s.recencyMaxDays;
    if d2 < m {
      DivHalfUpMonotone(1000 * (m - d2), 1000 * (m - d1), m);
    }
  }

  /** Frequency F: min(1, orders/frequency_target) rounded half-up to three decimals. */
  function FrequencyScore(s: DiscountSettings, totalOrders: nat): (r: int)
    requires s.frequencyTarget >= 1
    ensures 0 <= r <= 1000
    ensures totalOrders >= s.frequencyTarget ==> r == 1000
    ensures totalOrders < s.frequencyTarget ==> IsHalfUpQuotient(1000 * totalOrders, s.frequencyTarget, r)
  {
    var t := s.frequencyTarget;
    if totalOrders >= t then 1000
    else
      ThousandthsOfFraction(totalOrders, t);
      DivHalfUp(1000 * totalOrders, t)
  }

  /** Monetary M: 0 for a zero target, else min(1, spent/monetary_target) rounded half-up. */
  function MonetaryScore(s: DiscountSettings, totalSpent: nat): (r: int)
    requires s.monetaryTarget >= 0
    ensures 0 <= r <= 1000
    ensures s.monetaryTarget == 0 ==> r == 0
    ensures s.monetaryTarget > 0 && totalSpent >= s.monetaryTarget ==> r == 1000
    ensures 0 < s.monetaryTarget && totalSpent < s.monetaryTarget ==>
      IsHalfUpQuotient(1000 * totalSpent, s.monetaryTarget, r)
  {
    var t := s.monetaryTarget;
    if t == 0 then 0
    else if totalSpent >= t then 1000
    else
      ThousandthsOfFraction(totalSpent, t);
      DivHalfUp(1000 * totalSpent, t)
  }

  predicate WeightsInRange(s: DiscountSettings)
  {
    0 <= s.weightRecency <= 100 && 0 <= s.weightFrequency <= 100 && 0 <= s.weightMonetary <= 100
  }

  predicate IsScore(x: int) { 0 <= x <= 1000 }

  /**
   * The composite w_r*R + w_f*F + w_m*M rounded half-up to three decimals. It never
   * exceeds the weight sum, so it is at most 1 when the weights sum to exactly 1.
   */
  function RfmScore(s: DiscountSettings, recency: int, frequency: int, monetary: int): (r: int)
    requires WeightsInRange(s) && IsScore(recency) && IsScore(frequency) && IsScore(monetary)
    ensures 0 <= r <= 10 * WeightSum(s)
    ensures IsHalfUpQuotient(s.weightRecency * recency + s.weightFrequency * frequency + s.weightMonetary * monetary, 100, r)
  {
    var v := s.weightRecency * recency + s.weightFrequency * frequency + s.weightMonetary * monetary;
    CompositeBound(s.weightRecency, recency, s.weightFrequency, frequency, s.weightMonetary, monetary);
    var top := 10 * WeightSum(s);
    DivHalfUpMonotone(v, top * 100, 100);
    DivHalfUpMultiple(top, 100);
    DivHalfUp(v, 100)
  }

  lemma CompositeBound(w1: int, x1: int, w2: int, x2: int, w3: int, x3: int)
    requires 0 <= w1 && 0 <= w2 && 0 <= w3 && 0 <= x1 <= 1000 && 0 <= x2 <= 1000 && 0 <= x3 <= 1000
    ensures 0 <= w1 * x1 + w2 * x2 + w3 * x3 <= (10 * (w1 + w2 + w3)) * 100
  {
    MulMonotone(w1, x1, 1000);
    MulMonotone(w2, x2, 1000);
    MulMonotone(w3, x3, 1000);
  }

  /**
   * The weight-sum check tolerates 0.01, so a saved configuration can give a perfect
   * customer a composite of 1.010, above the documented range [0, 1].
   */
  lemma CleanAllowsCompositeAboveOne()
    ensures var s := Defaults.(weightRecency := 34, weightFrequency := 34, weightMonetary := 33);
      FieldsValid(s) && Clean(s).Ok? && RfmScore(s, 1000, 1000, 1000) == 1010
  {
  }

  /** The discount curve in percent: base + (max - base) * x ** exponent. */
  function CurveValue(s: DiscountSettings, pow: (real, real) -> real, x: real): real
  {
    var base := s.baseDiscountRate as real / 100.0;
    var maxRate := s.maxDiscountRate as real / 100.0;
    base + (maxRate - base) * pow(x, s.curveExponent as real / 100.0)
  }

  /**
   * Discount percent from the composite: base + (max - base) * rfm ** exponent, rounded
   * half-up to cents of a percent. It is the base rate at rfm 0, the max rate at rfm 1, and
   * between the two on [0, 1].
   */
  function DiscountFromRfm(s: DiscountSettings, rfm: int, pow: (real, real) -> real): (r: int)
    requires PowLaws(pow)
    ensures rfm == 0 && s.curveExponent > 0 ==> r == s.baseDiscountRate
    ensures rfm == 1000 ==> r == s.maxDiscountRate
    ensures 0 <= rfm <= 1000 && s.curveExponent > 0 && s.baseDiscountRate <= s.maxDiscountRate ==>
      s.baseDiscountRate <= r <= s.maxDiscountRate
  {
    CurvePercent(s, rfm, pow);
    RoundHalfUp(CurveValue(s, pow, rfm as real / 1000.0) * 100.0)
  }

  /** The facts DiscountFromRfm promises, about the rounded curve itself. */
  lemma CurvePercent(s: DiscountSettings, rfm: int, pow: (real, real) -> real)
    requires PowLaws(pow)
    ensures var r := RoundHalfUp(CurveValue(s, pow, rfm as real / 1000.0) * 100.0);
      (rfm == 0 && s.curveExponent > 0 ==> r == s.baseDiscountRate) &&
      (rfm == 1000 ==> r == s.maxDiscountRate) &&
      (0 <= rfm <= 1000 && s.curveExponent > 0 && s.baseDiscountRate <= s.maxDiscountRate ==>
        s.baseDiscountRate <= r <= s.maxDiscountRate)
  {
    var x := rfm as real / 1000.0;
    var a := s.curveExponent as real / 100.0;
    var p := pow(x, a);
    CurveInHundredths(s, pow, x);
    PowAt(pow, x, a);
    assert rfm == 0 ==> x == 0.0;
    assert rfm == 1000 ==> x == 1.0;
    assert 0 <= rfm <= 1000 ==> 0.0 <= x <= 1.0;
    assert s.curveExponent > 0 ==> a > 0.0;
    CurveBetween(s.baseDiscountRate, s.maxDiscountRate, p);
  }

  /**
   * The discount never falls as the composite score rises: with the base rate at most the
   * max rate, a higher rfm on [0, 1] gives at least the same percent.
   */
  lemma DiscountFromRfmMonotone(s: DiscountSettings, rfm1: int, rfm2: int, pow: (real, real) -> real)
    requires PowLaws(pow) && s.curveExponent > 0 && s.baseDiscountRate <= s.maxDiscountRate
    requires 0 <= rfm1 <= rfm2 <= 1000
    ensures DiscountFromRfm(s, rfm1, pow) <= DiscountFromRfm(s, rfm2, pow)
  {
    var x1 := rfm1 as real / 1000.0;
    var x2 := rfm2 as real / 1000.0;
    var a := s.curveExponent as real / 100.0;
    assert 0.0 <= x1 <= x2 <= 1.0 && a > 0.0;
    var p1 := pow(x1, a);
    var p2 := pow(x2, a);
    assert p1 <= p2;
    CurveInHundredths(s, pow, x1);
    CurveInHundredths(s, pow, x2);
    var d := (s.maxDiscountRate - s.baseDiscountRate) as real;
    assert d * p1 <= d * p2;
    RoundHalfUpMonotone(CurveValue(s, pow, x1) * 100.0, CurveValue(s, pow, x2) * 100.0);
  }

  /** The laws of ** at one point. */
  lemma PowAt(pow: (real, real) -> real, x: real, a: real)
    requires PowLaws(pow)
    ensures x == 0.0 && a > 0.0 ==> pow(x, a) == 0.0
    ensures x == 1.0 ==> pow(x, a) == 1.0
    ensures 0.0 <= x <= 1.0 && a > 0.0 ==> 0.0 <= pow(x, a) <= 1.0
  {
  }

  /** The curve in hundredths of a percent: the rates are integers there. */
  lemma CurveInHundredths(s: DiscountSettings, pow: (real, real) -> real, x: real)
    ensures CurveValue(s, pow, x) * 100.0 ==
      s.baseDiscountRate as real + (s.maxDiscountRate - s.baseDiscountRate) as real * pow(x, s.curveExponent as real / 100.0)
  {
    var p := pow(x, s.curveExponent as real / 100.0);
    var d := (s.maxDiscountRate - s.baseDiscountRate) as real;
    assert s.maxDiscountRate as real / 100.0 - s.baseDiscountRate as real / 100.0 == d / 100.0;
    assert (d / 100.0) * p * 100.0 == d * p;
  }

  lemma CurveBetween(lo: int, hi: int, p: real)
    ensures p == 0.0 ==> RoundHalfUp(lo as real + (hi - lo) as real * p) == lo
    ensures p == 1.0 ==> RoundHalfUp(lo as real + (hi - lo) as real * p) == hi
    ensures lo <= hi && 0.0 <= p <= 1.0 ==>
      lo <= RoundHalfUp(lo as real + (hi - lo) as real * p) <= hi
  {
    if p == 0.0 {
      RoundHalfUpWhole(lo);
    }
    if p == 1.0 {
      RoundHalfUpWhole(hi);
    }
    if lo <= hi && 0.0 <= p <= 1.0 {
      CurveMiddle(lo, hi, p);
    }
  }

  /** On [0, 1] the rounded curve stays within [lo, hi]. */
  lemma CurveMiddle(lo: int, hi: int, p: real)
    requires lo <= hi && 0.0 <= p <= 1.0
    ensures lo <= RoundHalfUp(lo as real + (hi - lo) as real * p) <= hi
  {
    var q := (hi - lo) as real * p;
    MulFraction((hi - lo) as real, p);
    OffsetBetween(lo, hi, q);
    RoundHalfUpBetween(lo as real + q, lo, hi);
  }

  /** An offset of at most hi - lo from lo stays within [lo, hi]. */
  lemma OffsetBetween(lo: int, hi: int, q: real)
    requires lo <= hi && 0.0 <= q <= (hi - lo) as real
    ensures lo as real <= lo as real + q <= hi as real
  {
  }

  // ---------------------------------------------------------------- profile

  /** A completed order of the customer: its total and how many days ago it was placed. */
  datatype CompletedOrder = CompletedOrder(total: nat, daysAgo: nat)

  /** The CustomerDiscount row recalculate_customer_metrics writes. */
  datatype Profile = Profile(
    totalOrders: nat,
    totalSpent: nat,
    daysSinceLast: Option<nat>,
    recency: int,
    frequency: int,
    monetary: int,
    rfm: int,
    baseDiscountPercent: int)

  function TotalSpent(orders: seq<CompletedOrder>): nat
  {
    if orders == [] then 0 else TotalSpent(orders[..|orders| - 1]) + orders[|orders| - 1].total
  }

  /** Days since the most recent completed order. */
  function MostRecent(orders: seq<CompletedOrder>): (d: nat)
    requires orders != []
    ensures exists i :: 0 <= i < |orders| && orders[i].daysAgo == d
    ensures forall i :: 0 <= i < |orders| ==> d <= orders[i].daysAgo
  {
    if |orders| == 1 then orders[0].daysAgo
    else
      var rest := MostRecent(orders[..|orders| - 1]);
      var last := orders[|orders| - 1].daysAgo;
      if last < rest then last else rest
  }

  /** recalculate_customer_metrics: raw metrics from the completed orders, then the scores. */
  function Recalculate(s: DiscountSettings, orders: seq<CompletedOrder>, pow: (real, real) -> real): (p: Profile)
    requires FieldsValid(s) && PowLaws(pow)
    ensures p.totalOrders == |orders| && p.totalSpent == TotalSpent(orders)
    ensures p.daysSinceLast.None? <==> orders == []
    ensures IsScore(p.recency) && IsScore(p.frequency) && IsScore(p.monetary)
    ensures 0 <= p.rfm <= 10 * WeightSum(s)
    ensures p.rfm <= 1000 ==> s.baseDiscountRate <= p.baseDiscountPercent <= s.maxDiscountRate || s.baseDiscountRate > s.maxDiscountRate
    ensures orders == [] ==> p.recency == 0 && p.frequency == 0 && p.monetary == 0 && p.rfm == 0 &&
                             p.baseDiscountPercent == s.baseDiscountRate
  {
    var last := if orders == [] then None else Some(MostRecent(orders));
    DivHalfUpZero(s.frequencyTarget);
    DivHalfUpZero(s.monetaryTarget);
    DivHalfUpZero(100);
    var r := RecencyScore(s, last);
    var f := FrequencyScore(s, |orders|);
    var m := MonetaryScore(s, TotalSpent(orders));
    var rfm := RfmScore(s, r, f, m);
    Profile(|orders|, TotalSpent(orders), last, r, f, m, rfm, DiscountFromRfm(s, rfm, pow))
  }

  // ---------------------------------------------------------------- bonuses

  /** check_first_purchase_bonus: the first-purchase percent only for a customer with no completed order. */
  function FirstPurchaseBonus(s: DiscountSettings, completedOrders: nat): (r: int)
    ensures r != 0 ==> completedOrders == 0
    ensures completedOrders == 0 ==> r == s.firstPurchaseDiscount
    ensures r == 0 || r == s.firstPurchaseDiscount
    ensures FieldsValid(s) ==> 0 <= r <= 5000
  {
    if completedOrders == 0 then s.firstPurchaseDiscount else 0
  }

  predicate WithinDays(a: Date, b: Date, n: int)
    requires Valid(a) && Valid(b)
  {
    -n <= DaysBetween(a, b) <= n
  }

  /** The birthday falls in year y (replace succeeds) and that occurrence is within n days of today. */
  predicate OccursWithin(birth: Date, y: int, today: Date, n: int)
    requires Valid(birth) && Valid(today)
  {
    var o := ReplaceYear(birth, y);
    o.Some? && WithinDays(o.value, today, n)
  }

  /** This year's occurrence; a February 29 birthday falls back to February 28. */
  function ThisYearBirthday(birth: Date, today: Date): (d: Date)
    requires Valid(birth) && Valid(today)
    ensures Valid(d) && d.year == today.year && d.month == birth.month
    ensures ReplaceYear(birth, today.year).Some? ==> d == birth.(year := today.year)
  {
    match ReplaceYear(birth, today.year)
    case Some(d) => d
    case None => Date(today.year, birth.month, 28)
  }

  /**
   * check_birthday_bonus as written: this year's occurrence, then last year's; next year's
   * occurrence is never looked at.
   */
  function BirthdayBonusAsWritten(s: DiscountSettings, birth: Option<Date>, today: Date): (r: int)
    requires Valid(today) && (birth.Some? ==> Valid(birth.value))
    ensures birth.None? ==> r == 0
    ensures birth.Some? ==>
      r == (if WithinDays(ThisYearBirthday(birth.value, today), today, s.birthdayDiscountDays) ||
               OccursWithin(birth.value, today.year - 1, today, s.birthdayDiscountDays)
            then s.birthdayDiscount else 0)
  {
    match birth
    case None => 0
    case Some(b) =>
      if WithinDays(ThisYearBirthday(b, today), today, s.birthdayDiscountDays) then s.birthdayDiscount
      else if OccursWithin(b, today.year - 1, today, s.birthdayDiscountDays) then s.birthdayDiscount
      else 0
  }

  /** A customer born on January 2 who shops on December 30 is three days from the birthday but gets no bonus. */
  lemma BirthdayNextYearMissed()
    ensures var b := Date(2000, 1, 2);
            var today := Date(2025, 12, 30);
            Valid(b) && Valid(today) &&
            OccursWithin(b, 2026, today, Defaults.birthdayDiscountDays) &&
            BirthdayBonusAsWritten(Defaults, Some(b), today) == 0
  {
    var b := Date(2000, 1, 2);
    var today := Date(2025, 12, 30);
    assert Ordinal(today) == 739615;
    assert Ordinal(Date(2026, 1, 2)) == 739618;
    assert Ordinal(Date(2025, 1, 2)) == 739253;
    assert Ordinal(Date(2024, 1, 2)) == 738887;
  }

  /** The birthday bonus with next year's occurrence checked as well (the evidently intended rule). */
  function BirthdayBonus(s: DiscountSettings, birth: Option<Date>, today: Date): (r: int)
    requires Valid(today) && (birth.Some? ==> Valid(birth.value))
    ensures r == 0 || r == s.birthdayDiscount
    ensures birth.None? ==> r == 0
    ensures birth.Some? && BirthdayBonusAsWritten(s, birth, today) == s.birthdayDiscount ==> r == s.birthdayDiscount
  {
    match birth
    case None => 0
    case Some(b) =>
      if WithinDays(ThisYearBirthday(b, today), today, s.birthdayDiscountDays) then s.birthdayDiscount
      else if OccursWithin(b, today.year - 1, today, s.birthdayDiscountDays) then s.birthdayDiscount
      else if OccursWithin(b, today.year + 1, today, s.birthdayDiscountDays) then s.birthdayDiscount
      else 0
  }

  /**
   * With the validated window (at most 30 days), the bonus is granted whenever ANY
   * occurrence of the birthday, in whatever year, is within the window of today.
   */
  lemma {:induction false} BirthdayBonusCoversEveryOccurrence(s: DiscountSettings, birth: Date, today: Date, y: int)
    requires FieldsValid(s) && Valid(birth) && Valid(today)
    requires OccursWithin(birth, y, today, s.birthdayDiscountDays)
    ensures BirthdayBonus(s, Some(birth), today) == s.birthdayDiscount
  {
    var o := ReplaceYear(birth, y).value;
    if y <= today.year - 2 {
      YearsApart(o, today);
    } else if y >= today.year + 2 {
      YearsApart(today, o);
    } else if y == today.year {
      assert ThisYearBirthday(birth, today) == o;
    }
  }

  // ---------------------------------------------------------------- promo codes

  /**
   * A PromoCodeUsage row: which code and which user. The code column is unique, so its exact
   * stored text stands for the foreign key to the code's row.
   */
  datatype Usage = Usage(code: string, user: int)

  function CountUses(usages: seq<Usage>, code: string, user: int): nat
  {
    if usages == [] then 0
    else CountUses(usages[..|usages| - 1], code, user) +
         (if usages[|usages| - 1] == Usage(code, user) then 1 else 0)
  }

  /**
   * on_delete=CASCADE: deleting a code deletes its usage rows. No use of the code is left, and
   * every other code keeps its per-user counts.
   */
  function DropUsagesOf(usages: seq<Usage>, code: string): (r: seq<Usage>)
    ensures forall u :: CountUses(r, code, u) == 0
    ensures forall c, u :: c != code ==> CountUses(r, c, u) == CountUses(usages, c, u)
    ensures forall i :: 0 <= i < |r| ==> r[i].code != code && r[i] in usages
  {
    if usages == [] then []
    else
      var init := DropUsagesOf(usages[..|usages| - 1], code);
      var last := usages[|usages| - 1];
      if last.code == code then init
      else
        assert (init + [last])[..|init|] == init;
        init + [last]
  }

  /** The rows a code__iexact lookup matches. */
  function MatchesIExact(promos: seq<PromoCode>, code: string): (m: seq<PromoCode>)
    ensures forall p :: p in m <==> p in promos && EqualsIgnoreCase(p.code, code)
    ensures |m| <= |promos|
  {
    if promos == [] then []
    else
      var rest := MatchesIExact(promos[..|promos| - 1], code);
      var last := promos[|promos| - 1];
      assert promos == promos[..|promos| - 1] + [last];
      if EqualsIgnoreCase(last.code, code) then rest + [last] else rest
  }

  datatype Lookup = NotFound | Found(promo: PromoCode) | Ambiguous

  /** PromoCode.objects.get(code__iexact=code): one match, none (DoesNotExist) or several (MultipleObjectsReturned). */
  function LookupIExact(promos: seq<PromoCode>, code: string): (r: Lookup)
    ensures r == NotFound <==> forall p :: p in promos ==> !EqualsIgnoreCase(p.code, code)
    ensures r.Found? ==> r.promo in promos && EqualsIgnoreCase(r.promo.code, code)
  {
    var m := MatchesIExact(promos, code);
    if |m| == 0 then NotFound
    else
      assert m[0] in m;
      if |m| == 1 then Found(m[0]) else Ambiguous
  }

  /** The rows matching a code, as a count of indices. */
  function MatchIndices(promos: seq<PromoCode>, code: string): nat
  {
    if promos == [] then 0
    else MatchIndices(promos[..|promos| - 1], code) + (if EqualsIgnoreCase(promos[|promos| - 1].code, code) then 1 else 0)
  }

  lemma {:induction false} MatchCount(promos: seq<PromoCode>, code: string)
    ensures |MatchesIExact(promos, code)| == MatchIndices(promos, code)
  {
    if promos != [] {
      MatchCount(promos[..|promos| - 1], code);
    }
  }

  /** Two matching indices make at least two matches. */
  lemma {:induction false} TwoMatches(promos: seq<PromoCode>, code: string, i: int, j: int)
    requires 0 <= i < |promos| && 0 <= j < |promos| && i != j
    requires EqualsIgnoreCase(promos[i].code, code) && EqualsIgnoreCase(promos[j].code, code)
    ensures |MatchesIExact(promos, code)| >= 2
  {
    MatchCount(promos, code);
    AtLeastTwo(promos, code, i, j);
  }

  lemma {:induction false} AtLeastTwo(promos: seq<PromoCode>, code: string, i: int, j: int)
    requires 0 <= i < |promos| && 0 <= j < |promos| && i != j
    requires EqualsIgnoreCase(promos[i].code, code) && EqualsIgnoreCase(promos[j].code, code)
    ensures MatchIndices(promos, code) >= 2
    decreases |promos|
  {
    var n := |promos| - 1;
    var init := promos[..n];
    if i == n || j == n {
      var other := if i == n then j else i;
      assert init[other] == promos[other];
      AtLeastOne(init, code, other);
    } else {
      assert init[i] == promos[i] && init[j] == promos[j];
      AtLeastTwo(init, code, i, j);
    }
  }

  lemma {:induction false} AtLeastOne(promos: seq<PromoCode>, code: string, i: int)
    requires 0 <= i < |promos| && EqualsIgnoreCase(promos[i].code, code)
    ensures MatchIndices(promos, code) >= 1
    decreases |promos|
  {
    var n := |promos| - 1;
    if i != n {
      assert promos[..n][i] == promos[i];
      AtLeastOne(promos[..n], code, i);
    }
  }

  /** The (is_valid, message, promo) triple validate_promo_code returns. */
  datatype PromoCheck = PromoCheck(isValid: bool, message: string, promo: Option<PromoCode>)

  /**
   * validate_promo_code: existence (case-insensitive), is_active, not before valid_from,
   * not after valid_until, the global cap (only for a non-zero cap), then the per-user cap.
   * The first failing check decides the message; an ambiguous lookup raises (Err).
   */
  function ValidatePromoCode(promos: seq<PromoCode>, usages: seq<Usage>, user: int, code: string, now: int)
    : (r: Result<PromoCheck>)
    ensures r.Err? <==> LookupIExact(promos, code) == Ambiguous
    ensures r.Ok? ==> (r.value.isValid <==> r.value.promo.Some?)
    ensures r.Ok? && r.value.isValid ==>
      r.value.message == "Promo code is valid" &&
      LookupIExact(promos, code).Found? && r.value.promo == Some(LookupIExact(promos, code).promo)
    ensures r.Ok? && LookupIExact(promos, code) == NotFound ==> r.value.message == "Invalid promo code"
    ensures r.Ok? && LookupIExact(promos, code).Found? ==>
      var p := LookupIExact(promos, code).promo;
      r.value.message ==
        if !p.isActive then "This promo code is no longer active"
        else if now < p.validFrom then "This promo code is not yet valid"
        else if now > p.validUntil then "This promo code has expired"
        else if UsageLimitReached(p) then "This promo code has reached its usage limit"
        else if CountUses(usages, p.code, user) >= p.maxUsesPerUser then "You have already used this promo code"
        else "Promo code is valid"
  {
    match LookupIExact(promos, code)
    case Ambiguous => Err("MultipleObjectsReturned")
    case NotFound => Ok(PromoCheck(false, "Invalid promo code", None))
    case Found(p) =>
      if !p.isActive then Ok(PromoCheck(false, "This promo code is no longer active", None))
      else if now < p.validFrom then Ok(PromoCheck(false, "This promo code is not yet valid", None))
      else if now > p.validUntil then Ok(PromoCheck(false, "This promo code has expired", None))
      else if p.maxUses.Some? && p.maxUses.value != 0 && p.timesUsed >= p.maxUses.value then
        Ok(PromoCheck(false, "This promo code has reached its usage limit", None))
      else if CountUses(usages, p.code, user) >= p.maxUsesPerUser then
        Ok(PromoCheck(false, "You have already used this promo code", None))
      else Ok(PromoCheck(true, "Promo code is valid", Some(p)))
  }

  /**
   * The service check is the model's is_valid plus the per-user cap: a code passes
   * validate_promo_code exactly when its row is_valid and the user is under the per-user cap.
   */
  lemma ValidateAgreesWithIsValid(promos: seq<PromoCode>, usages: seq<Usage>, user: int, code: string, now: int)
    requires LookupIExact(promos, code).Found?
    ensures var p := LookupIExact(promos, code).promo;
      ValidatePromoCode(promos, usages, user, code, now).value.isValid <==>
        IsValid(p, now) && CountUses(usages, p.code, user) < p.maxUsesPerUser
  {
  }

  /** The tables the checkout touches: promo codes, their usage rows and the discount history. */
  class DiscountTables {
    var promos: seq<PromoCode>
    var usages: seq<Usage>
    var history: seq<HistoryRow>

    constructor (promos: seq<PromoCode>)
      ensures this.promos == promos && usages == [] && history == []
    {
      this.promos := promos;
      usages := [];
      history := [];
    }
  }

  /** `times_used += 1` on the rows a code__iexact lookup matches; the other rows are untouched. */
  function MarkUsed(promos: seq<PromoCode>, code: string): (r: seq<PromoCode>)
    ensures |r| == |promos|
    ensures forall i :: 0 <= i < |promos| && EqualsIgnoreCase(promos[i].code, code) ==>
      r[i] == promos[i].(timesUsed := promos[i].timesUsed + 1)
    ensures forall i :: 0 <= i < |promos| && !EqualsIgnoreCase(promos[i].code, code) ==> r[i] == promos[i]
  {
    seq(|promos|, i requires 0 <= i < |promos| =>
      if EqualsIgnoreCase(promos[i].code, code) then promos[i].(timesUsed := promos[i].timesUsed + 1) else promos[i])
  }

  /** The promo deduction on the original total: nothing below the minimum order, else the percent (rounded half-up) or the fixed value. */
  function PromoDeduction(p: PromoCode, orderTotal: int): (a: int)
    ensures orderTotal < p.minOrderAmount ==> a == 0
    ensures orderTotal >= p.minOrderAmount && p.discountType == Fixed ==> a == p.value
    ensures orderTotal >= p.minOrderAmount && p.discountType == Percent ==>
      IsHalfUpQuotient(orderTotal * p.value, 10000, a)
  {
    if orderTotal < p.minOrderAmount then 0
    else match p.discountType
      case Percent => DivHalfUp(orderTotal * p.value, 10000)
      case Fixed => p.value
  }

  // ---------------------------------------------------------------- calculate_discount

  datatype BreakdownItem =
    | RfmItem(percent: int)
    | FirstPurchaseItem(percent: int)
    | BirthdayItem(percent: int)
    | PromoItem(code: string, amount: int)

  /** The dictionary calculate_discount returns (promo_display is left out). */
  datatype Discount = Discount(
    isActive: bool,
    totalPercent: int,
    totalAmount: int,
    promoAmount: int,
    finalAmount: int,
    originalAmount: int,
    breakdown: seq<BreakdownItem>,
    rfmScore: int,
    promoCodeValid: bool)

  /** The sum of the percent-type items of a breakdown. */
  function PercentSum(b: seq<BreakdownItem>): int
  {
    if b == [] then 0
    else PercentSum(b[..|b| - 1]) + (if b[|b| - 1].PromoItem? then 0 else b[|b| - 1].percent)
  }

  lemma PercentSumAppend(b: seq<BreakdownItem>, x: BreakdownItem)
    ensures PercentSum(b + [x]) == PercentSum(b) + (if x.PromoItem? then 0 else x.percent)
  {
    assert (b + [x])[..|b + [x]| - 1] == b;
  }

  /** Money part of calculate_discount: percent amount plus promo, floored so the final is never negative. */
  function Settle(orderTotal: int, percentAmount: int, promoAmount: int): (r: (int, int))
    ensures r.0 + r.1 == orderTotal
    ensures r.1 >= 0
    ensures orderTotal - (percentAmount + promoAmount) >= 0 ==> r.0 == percentAmount + promoAmount
    ensures orderTotal - (percentAmount + promoAmount) < 0 ==> r.1 == 0 && r.0 == orderTotal
  {
    var amount := percentAmount + promoAmount;
    var final := orderTotal - amount;
    if final < 0 then (orderTotal, 0) else (amount, final)
  }

  /** The percent entries of the breakdown, in the order calculate_discount appends them. */
  function PercentItems(s: DiscountSettings, profile: Profile, birthdayBonus: int): seq<BreakdownItem>
  {
    var rfm := profile.baseDiscountPercent;
    var firstPurchase := FirstPurchaseBonus(s, profile.totalOrders);
    (if rfm > 0 then [RfmItem(rfm)] else []) +
    (if rfm == 0 && firstPurchase > 0 then [FirstPurchaseItem(firstPurchase)] else []) +
    (if birthdayBonus > 0 then [BirthdayItem(birthdayBonus)] else [])
  }

  predicate HasFirstPurchase(b: seq<BreakdownItem>)
  {
    exists i :: 0 <= i < |b| && b[i].FirstPurchaseItem?
  }

  predicate HasRfm(b: seq<BreakdownItem>)
  {
    exists i :: 0 <= i < |b| && b[i].RfmItem?
  }

  /**
   * The first-purchase bonus never stacks with the RFM discount, and it is listed, at the
   * configured percent, exactly for a customer with no completed order, no RFM discount and a
   * positive bonus setting; every listed percent is positive, so their sum is too.
   */
  lemma PercentItemsFacts(s: DiscountSettings, profile: Profile, birthdayBonus: int)
    requires FieldsValid(s)
    ensures var b := PercentItems(s, profile, birthdayBonus);
      !(HasFirstPurchase(b) && HasRfm(b)) &&
      (HasFirstPurchase(b) <==>
         profile.totalOrders == 0 && profile.baseDiscountPercent == 0 && s.firstPurchaseDiscount > 0) &&
      (forall i :: 0 <= i < |b| && b[i].FirstPurchaseItem? ==> b[i].percent == s.firstPurchaseDiscount) &&
      (HasRfm(b) <==> profile.baseDiscountPercent > 0) &&
      (forall i :: 0 <= i < |b| ==> !b[i].PromoItem? && b[i].percent > 0) &&
      PercentSum(b) >= 0
  {
    var rfm := profile.baseDiscountPercent;
    var firstPurchase := FirstPurchaseBonus(s, profile.totalOrders);
    var b := PercentItems(s, profile, birthdayBonus);
    var x: seq<BreakdownItem> := if rfm > 0 then [RfmItem(rfm)] else [];
    var y: seq<BreakdownItem> := if rfm == 0 && firstPurchase > 0 then [FirstPurchaseItem(firstPurchase)] else [];
    var z: seq<BreakdownItem> := if birthdayBonus > 0 then [BirthdayItem(birthdayBonus)] else [];
    assert b == x + y + z;
    ThreeParts(x, y, z);
    PercentItemsSum(s, profile, birthdayBonus);
  }

  /** An RFM part, a first-purchase part and a birthday part, each empty or one positive entry. */
  lemma ThreeParts(x: seq<BreakdownItem>, y: seq<BreakdownItem>, z: seq<BreakdownItem>)
    requires |x| <= 1 && |y| <= 1 && |z| <= 1
    requires x != [] ==> x[0].RfmItem? && x[0].percent > 0
    requires y != [] ==> y[0].FirstPurchaseItem? && y[0].percent > 0
    requires z != [] ==> z[0].BirthdayItem? && z[0].percent > 0
    ensures HasRfm(x + y + z) <==> x != []
    ensures HasFirstPurchase(x + y + z) <==> y != []
    ensures forall i :: 0 <= i < |x + y + z| ==> !(x + y + z)[i].PromoItem? && (x + y + z)[i].percent > 0
  {
    var b := x + y + z;
    if x != [] { assert b[0].RfmItem?; }
    if y != [] { assert b[|x|].FirstPurchaseItem?; }
  }

  /** The percent entries add up to the RFM discount or the first-purchase bonus, plus the birthday bonus. */
  lemma PercentItemsSum(s: DiscountSettings, profile: Profile, birthdayBonus: int)
    ensures var rfm := profile.baseDiscountPercent;
      var firstPurchase := FirstPurchaseBonus(s, profile.totalOrders);
      PercentSum(PercentItems(s, profile, birthdayBonus)) ==
        (if rfm > 0 then rfm else 0) + (if rfm == 0 && firstPurchase > 0 then firstPurchase else 0) +
        (if birthdayBonus > 0 then birthdayBonus else 0)
  {
    var rfm := profile.baseDiscountPercent;
    var firstPurchase := FirstPurchaseBonus(s, profile.totalOrders);
    var a: seq<BreakdownItem> := if rfm > 0 then [RfmItem(rfm)] else [];
    var b: seq<BreakdownItem> := if rfm == 0 && firstPurchase > 0 then [FirstPurchaseItem(firstPurchase)] else [];
    var c: seq<BreakdownItem> := if birthdayBonus > 0 then [BirthdayItem(birthdayBonus)] else [];
    assert PercentSum(a) == (if rfm > 0 then rfm else 0) by {
      if rfm > 0 { PercentSumAppend([], RfmItem(rfm)); }
    }
    assert PercentSum(a + b) == PercentSum(a) + (if rfm == 0 && firstPurchase > 0 then firstPurchase else 0) by {
      if rfm == 0 && firstPurchase > 0 { PercentSumAppend(a, FirstPurchaseItem(firstPurchase)); } else { assert a + b == a; }
    }
    if birthdayBonus > 0 {
      PercentSumAppend(a + b, BirthdayItem(birthdayBonus));
    } else {
      assert a + b + c == a + b;
    }
  }

  /**
   * Steps 1-3 of calculate_discount and the cap: the RFM discount when positive, else the
   * first-purchase bonus, then the birthday bonus, each appended to the breakdown; the
   * total percent is their sum capped at max_total_discount.
   */
  method StackPercents(s: DiscountSettings, profile: Profile, birthdayBonus: int)
    returns (breakdown: seq<BreakdownItem>, totalPercent: int)
    requires FieldsValid(s)
    ensures breakdown == PercentItems(s, profile, birthdayBonus)
    ensures totalPercent == MinInt(PercentSum(breakdown), s.maxTotalDiscount)
  {
    breakdown := [];
    totalPercent := 0;

    var rfmDiscount := profile.baseDiscountPercent;
    if rfmDiscount > 0 {
      breakdown := breakdown + [RfmItem(rfmDiscount)];
      totalPercent := totalPercent + rfmDiscount;
    }
    if rfmDiscount == 0 {
      var firstPurchase := FirstPurchaseBonus(s, profile.totalOrders);
      if firstPurchase > 0 {
        breakdown := breakdown + [FirstPurchaseItem(firstPurchase)];
        totalPercent := totalPercent + firstPurchase;
      }
    }
    if birthdayBonus > 0 {
      breakdown := breakdown + [BirthdayItem(birthdayBonus)];
      totalPercent := totalPercent + birthdayBonus;
    }
    PercentItemsSum(s, profile, birthdayBonus);
    if totalPercent > s.maxTotalDiscount {
      totalPercent := s.maxTotalDiscount;
    }
  }

  /** The promo entry of the breakdown: only for a valid code whose minimum the original total reaches. */
  function PromoEntry(promoCode: string, check: Result<PromoCheck>, orderTotal: int): seq<BreakdownItem>
  {
    if promoCode != "" && check.Ok? && check.value.isValid && check.value.promo.Some? &&
       orderTotal >= check.value.promo.value.minOrderAmount
    then [PromoItem(check.value.promo.value.code, PromoDeduction(check.value.promo.value, orderTotal))]
    else []
  }

  /**
   * Step 4 of calculate_discount: a non-empty code is validated; a valid code yields its
   * deduction and a breakdown entry when the original total reaches its minimum, and counts
   * as valid even when the minimum suppressed the deduction.
   */
  method ApplyPromo(promos: seq<PromoCode>, usages: seq<Usage>, user: int, now: int, orderTotal: int, promoCode: string)
    returns (r: Result<(bool, int, Option<BreakdownItem>)>)
    ensures r.Err? <==> promoCode != "" && LookupIExact(promos, promoCode) == Ambiguous
    ensures r.Ok? ==>
      var (valid, amount, item) := r.value;
      var check := ValidatePromoCode(promos, usages, user, promoCode, now);
      (valid <==> promoCode != "" && check.value.isValid) &&
      (valid ==> amount == PromoDeduction(check.value.promo.value, orderTotal)) &&
      (!valid ==> amount == 0) &&
      (if item.Some? then [item.value] else []) == PromoEntry(promoCode, check, orderTotal)
  {
    if promoCode == "" {
      return Ok((false, 0, None));
    }
    var check := ValidatePromoCode(promos, usages, user, promoCode, now);
    if check.Err? {
      return Err(check.error);
    }
    if check.value.isValid && check.value.promo.Some? {
      var promo := check.value.promo.value;
      if orderTotal >= promo.minOrderAmount {
        var amount := PromoDeduction(promo, orderTotal);
        return Ok((true, amount, Some(PromoItem(promo.code, amount))));
      }
      return Ok((true, 0, None));
    }
    return Ok((false, 0, None));
  }

  /**
   * calculate_discount. Inactive settings give a zero discount. Otherwise the percent part
   * comes from StackPercents; a valid promo code adds its deduction on the original total;
   * the final amount is floored at zero.
   */
  method CalculateDiscount(
    s: DiscountSettings, orders: seq<CompletedOrder>, birth: Option<Date>, today: Date,
    promos: seq<PromoCode>, usages: seq<Usage>, user: int, now: int,
    orderTotal: int, promoCode: string, pow: (real, real) -> real)
    returns (r: Result<Discount>)
    requires FieldsValid(s) && PowLaws(pow) && Valid(today) && (birth.Some? ==> Valid(birth.value))
    ensures !s.isActive ==> r == Ok(Discount(false, 0, 0, 0, orderTotal, orderTotal, [], 0, false))
    ensures r.Err? <==> s.isActive && promoCode != "" && LookupIExact(promos, promoCode) == Ambiguous
    ensures r.Ok? ==> r.value.finalAmount + r.value.totalAmount == orderTotal && r.value.originalAmount == orderTotal
    ensures r.Ok? && s.isActive ==>
      var d := r.value;
      d.finalAmount >= 0 &&
      d.totalPercent == MinInt(PercentSum(d.breakdown), s.maxTotalDiscount) &&
      0 <= d.totalPercent <= s.maxTotalDiscount &&
      d.totalAmount == Settle(orderTotal, DivHalfUp(orderTotal * d.totalPercent, 10000), d.promoAmount).0
    ensures r.Ok? && s.isActive ==>
      var d := r.value;
      var check := ValidatePromoCode(promos, usages, user, promoCode, now);
      (d.promoCodeValid <==> promoCode != "" && check.Ok? && check.value.isValid) &&
      (d.promoCodeValid ==> check.Ok? && d.promoAmount == PromoDeduction(check.value.promo.value, orderTotal)) &&
      (!d.promoCodeValid ==> d.promoAmount == 0)
    ensures r.Ok? && s.isActive ==>
      var d := r.value;
      var p := Recalculate(s, orders, pow);
      var percentItems := PercentItems(s, p, BirthdayBonusAsWritten(s, birth, today));
      d.rfmScore == p.rfm &&
      d.breakdown == percentItems + PromoEntry(promoCode, ValidatePromoCode(promos, usages, user, promoCode, now), orderTotal)
  {
    if !s.isActive {
      return Ok(Discount(false, 0, 0, 0, orderTotal, orderTotal, [], 0, false));
    }
    var profile := Recalculate(s, orders, pow);
    var birthdayBonus := BirthdayBonusAsWritten(s, birth, today);
    var breakdown, totalPercent := StackPercents(s, profile, birthdayBonus);
    PercentItemsSumNonNegative(s, profile, birthdayBonus);
    var totalAmount := DivHalfUp(orderTotal * totalPercent, 10000);

    var promo := ApplyPromo(promos, usages, user, now, orderTotal, promoCode);
    if promo.Err? {
      return Err(promo.error);
    }
    var (promoValid, promoAmount, promoItem) := promo.value;
    if promoItem.Some? {
      PercentSumAppend(breakdown, promoItem.value);
      breakdown := breakdown + [promoItem.value];
    }

    var settled := Settle(orderTotal, totalAmount, promoAmount);
    r := Ok(Discount(true, totalPercent, settled.0, promoAmount, settled.1, orderTotal,
                     breakdown, profile.rfm, promoValid));
  }

  /** The percent entries never sum below zero. */
  lemma PercentItemsSumNonNegative(s: DiscountSettings, profile: Profile, birthdayBonus: int)
    requires FieldsValid(s)
    ensures PercentSum(PercentItems(s, profile, birthdayBonus)) >= 0
  {
    PercentItemsFacts(s, profile, birthdayBonus);
  }

  // ---------------------------------------------------------------- save_discount_history

  /** A DiscountHistory row: the entry's type, its percent, its amount in cents and the rfm snapshot. */
  datatype HistoryRow = HistoryRow(item: BreakdownItem, percent: int, amount: int, rfmSnapshot: int)

  /**
   * save_discount_history as written: a percent entry gets
   * (total_discount_amount - promo) * percent / total_discount_percent, quantized half-even.
   * total_discount_percent is the CAPPED percent.
   */
  function HistoryRowAsWritten(d: Discount, item: BreakdownItem): (row: HistoryRow)
    ensures item.PromoItem? ==> row.percent == 0 && row.amount == item.amount
    ensures !item.PromoItem? && d.totalPercent > 0 ==>
      row.percent == item.percent &&
      -d.totalPercent <= 2 * (d.totalAmount - d.promoAmount) * item.percent - 2 * d.totalPercent * row.amount <= d.totalPercent
  {
    if item.PromoItem? then HistoryRow(item, 0, item.amount, d.rfmScore)
    else if d.totalPercent > 0 then
      HistoryRow(item, item.percent, DivHalfEven((d.totalAmount - d.promoAmount) * item.percent, d.totalPercent), d.rfmScore)
    else HistoryRow(item, item.percent, 0, d.rfmScore)
  }

  /**
   * When the cap applies the shares are taken against the capped percent, so the recorded
   * amounts add up to more than the discount granted: RFM 20 % and birthday 10 % capped at
   * 25 % on a 100.00 order grant 25.00 but record 20.00 + 10.00.
   */
  lemma HistoryOverstatesCappedDiscount()
    ensures var d := Discount(true, 2500, 2500, 0, 7500, 10000, [RfmItem(2000), BirthdayItem(1000)], 800, false);
      HistoryRowAsWritten(d, d.breakdown[0]).amount + HistoryRowAsWritten(d, d.breakdown[1]).amount == 3000 &&
      d.totalAmount - d.promoAmount == 2500
  {
  }

  /**
   * The evidently intended split: each percent entry's share of the percent-based amount in
   * proportion to its percent among all percent entries. Without the cap this is the same
   * as the as-written rule.
   */
  function HistoryRowFor(d: Discount, item: BreakdownItem): (row: HistoryRow)
    ensures item.PromoItem? ==> row.percent == 0 && row.amount == item.amount
    ensures !item.PromoItem? && PercentSum(d.breakdown) > 0 ==>
      row.percent == item.percent &&
      -PercentSum(d.breakdown) <= 2 * (d.totalAmount - d.promoAmount) * item.percent - 2 * PercentSum(d.breakdown) * row.amount
        <= PercentSum(d.breakdown)
    ensures PercentSum(d.breakdown) == d.totalPercent ==> row == HistoryRowAsWritten(d, item)
  {
    var sum := PercentSum(d.breakdown);
    if item.PromoItem? then HistoryRow(item, 0, item.amount, d.rfmScore)
    else if sum > 0 then
      HistoryRow(item, item.percent, DivHalfEven((d.totalAmount - d.promoAmount) * item.percent, sum), d.rfmScore)
    else HistoryRow(item, item.percent, 0, d.rfmScore)
  }

  function PercentRowsTotal(rows: seq<HistoryRow>): int
  {
    if rows == [] then 0
    else PercentRowsTotal(rows[..|rows| - 1]) + (if rows[|rows| - 1].item.PromoItem? then 0 else rows[|rows| - 1].amount)
  }

  function PercentCount(b: seq<BreakdownItem>): nat
  {
    if b == [] then 0 else PercentCount(b[..|b| - 1]) + (if b[|b| - 1].PromoItem? then 0 else 1)
  }

  /** save_discount_history: one history row per breakdown entry, in order, split as written. */
  method SaveDiscountHistory(d: Discount) returns (rows: seq<HistoryRow>)
    ensures |rows| == |d.breakdown|
    ensures forall i :: 0 <= i < |rows| ==> rows[i] == HistoryRowAsWritten(d, d.breakdown[i])
  {
    rows := [];
    for i := 0 to |d.breakdown|
      invariant |rows| == i
      invariant forall k :: 0 <= k < i ==> rows[k] == HistoryRowAsWritten(d, d.breakdown[k])
    {
      rows := rows + [HistoryRowAsWritten(d, d.breakdown[i])];
    }
  }

  /**
   * When the cap does not apply (the percent entries sum to the granted percent) the rows
   * save_discount_history writes add up to the percent-based discount, up to half a cent of
   * rounding per entry.
   */
  lemma HistoryRowsAddUpUncapped(d: Discount, rows: seq<HistoryRow>)
    requires PercentSum(d.breakdown) == d.totalPercent > 0
    requires |rows| == |d.breakdown| && forall i :: 0 <= i < |rows| ==> rows[i] == HistoryRowAsWritten(d, d.breakdown[i])
    ensures 2 * (d.totalAmount - d.promoAmount) - PercentCount(d.breakdown) <= 2 * PercentRowsTotal(rows)
    ensures 2 * PercentRowsTotal(rows) <= 2 * (d.totalAmount - d.promoAmount) + PercentCount(d.breakdown)
  {
    forall i | 0 <= i < |rows|
      ensures rows[i] == HistoryRowFor(d, d.breakdown[i])
    {
      assert HistoryRowFor(d, d.breakdown[i]) == HistoryRowAsWritten(d, d.breakdown[i]);
    }
    HistoryRowsAddUp(d, rows);
  }

  /**
   * With the corrected split the recorded percent amounts add up to the percent-based
   * discount, up to half a cent of rounding per entry.
   */
  lemma {:induction false} HistoryRowsAddUp(d: Discount, rows: seq<HistoryRow>)
    requires PercentSum(d.breakdown) > 0
    requires |rows| == |d.breakdown| && forall i :: 0 <= i < |rows| ==> rows[i] == HistoryRowFor(d, d.breakdown[i])
    ensures 2 * (d.totalAmount - d.promoAmount) - PercentCount(d.breakdown) <= 2 * PercentRowsTotal(rows)
    ensures 2 * PercentRowsTotal(rows) <= 2 * (d.totalAmount - d.promoAmount) + PercentCount(d.breakdown)
  {
    var S := PercentSum(d.breakdown);
    var A := d.totalAmount - d.promoAmount;
    SharesBound(d, d.breakdown, rows, S, A);
    var k := PercentCount(d.breakdown) as int;
    var T := PercentRowsTotal(rows);
    DivideBound(S, A, T, k);
  }

  lemma DivideBound(s: int, a: int, t: int, k: int)
    requires s > 0 && -k * s <= 2 * a * s - 2 * s * t <= k * s
    ensures -k <= 2 * t - 2 * a <= k
  {
    var x := 2 * t - 2 * a;
    assert 2 * a * s - 2 * s * t == -(s * x);
    if x > k {
      MulAtLeast(s, x - k);
      assert false;
    }
    if x < -k {
      MulAtLeast(s, -k - x);
      assert false;
    }
  }

  /** One more entry adds at most one more half-cent of rounding error. */
  lemma ShareStep(S: int, A: int, k0: int, p0: int, t0: int, x: int, a: int)
    requires -k0 * S <= 2 * A * p0 - 2 * S * t0 <= k0 * S
    requires -S <= 2 * A * x - 2 * S * a <= S
    ensures -(k0 + 1) * S <= 2 * A * (p0 + x) - 2 * S * (t0 + a) <= (k0 + 1) * S
  {
    assert 2 * A * (p0 + x) == 2 * A * p0 + 2 * A * x;
    assert 2 * S * (t0 + a) == 2 * S * t0 + 2 * S * a;
    assert (k0 + 1) * S == k0 * S + S;
  }

  lemma {:induction false} SharesBound(d: Discount, b: seq<BreakdownItem>, rows: seq<HistoryRow>, S: int, A: int)
    requires S == PercentSum(d.breakdown) > 0 && A == d.totalAmount - d.promoAmount
    requires |rows| == |b| && forall i :: 0 <= i < |rows| ==> rows[i] == HistoryRowFor(d, b[i])
    ensures var k := PercentCount(b) as int;
      -k * S <= 2 * A * PercentSum(b) - 2 * S * PercentRowsTotal(rows) <= k * S
  {
    if b != [] {
      var n := |b| - 1;
      SharesBound(d, b[..n], rows[..n], S, A);
      var x := b[n];
      var row := rows[n];
      assert row == HistoryRowFor(d, x);
      var k0 := PercentCount(b[..n]) as int;
      var p0 := PercentSum(b[..n]);
      var t0 := PercentRowsTotal(rows[..n]);
      if !x.PromoItem? {
        ShareStep(S, A, k0, p0, t0, x.percent, row.amount);
      }
    }
  }

  // ---------------------------------------------------------------- get_discount_curve_data

  datatype CurvePoint = CurvePoint(rfm: real, discount: real)

  /** get_discount_curve_data: 101 samples of the curve at rfm = 0.00, 0.01, ..., 1.00, rounded to 2 places. */
  method DiscountCurveData(s: DiscountSettings, pow: (real, real) -> real) returns (points: seq<CurvePoint>)
    requires PowLaws(pow) && s.curveExponent > 0
    ensures |points| == 101
    ensures forall i :: 0 <= i < 101 ==>
      points[i].rfm == i as real / 100.0 && points[i].discount == Round2(CurveValue(s, pow, i as real / 100.0))
    ensures points[0].discount == Round2(s.baseDiscountRate as real / 100.0)
    ensures points[100].discount == Round2(s.maxDiscountRate as real / 100.0)
  {
    points := [];
    for i := 0 to 101
      invariant |points| == i
      invariant forall k :: 0 <= k < i ==>
        points[k].rfm == k as real / 100.0 && points[k].discount == Round2(CurveValue(s, pow, k as real / 100.0))
    {
      var rfm := i as real / 100.0;
      points := points + [CurvePoint(rfm, Round2(CurveValue(s, pow, rfm)))];
    }
    assert CurveValue(s, pow, 0.0) == s.baseDiscountRate as real / 100.0;
    assert CurveValue(s, pow, 1.0) == s.maxDiscountRate as real / 100.0;
  }
}

// discounts/models.py: the global discount settings (a singleton row), their field
// validators and weight-sum check, and promo codes with their validity predicate.
//
// Units: weights and the curve exponent in hundredths (0.25 is 25), rates and bonuses in
// hundredths of a percent (15.00 % is 1500), money in cents, instants in seconds.
module DiscountModels {
  import opened Wrappers

  datatype DiscountSettings = DiscountSettings(
    weightRecency: int,
    weightFrequency: int,
    weightMonetary: int,
    baseDiscountRate: int,
    maxDiscountRate: int,
    curveExponent: int,
    recencyMaxDays: int,
    frequencyTarget: int,
    monetaryTarget: int,
    firstPurchaseDiscount: int,
    birthdayDiscount: int,
    birthdayDiscountDays: int,
    isActive: bool,
    maxTotalDiscount: int)

  /** The field defaults a freshly created settings row gets. */
  const Defaults := DiscountSettings(25, 35, 40, 0, 1500, 70, 90, 10, 50000, 500, 1000, 7, true, 2500)

  /** The bounds the model fields' validators enforce on every saved row. */
  predicate FieldsValid(s: DiscountSettings)
  {
    0 <= s.weightRecency <= 100 && 0 <= s.weightFrequency <= 100 && 0 <= s.weightMonetary <= 100 &&
    0 <= s.baseDiscountRate <= 5000 && 0 <= s.maxDiscountRate <= 5000 &&
    10 <= s.curveExponent <= 300 &&
    s.recencyMaxDays >= 7 && s.frequencyTarget >= 1 && s.monetaryTarget >= 100 &&
    0 <= s.firstPurchaseDiscount <= 5000 && 0 <= s.birthdayDiscount <= 5000 &&
    1 <= s.birthdayDiscountDays <= 30 &&
    0 <= s.maxTotalDiscount <= 7500
  }

  function WeightSum(s: DiscountSettings): int
  {
    s.weightRecency + s.weightFrequency + s.weightMonetary
  }

  /** DiscountSettings.clean: the three weights must sum to 1.00 within 0.01. */
  function Clean(s: DiscountSettings): (r: Result<DiscountSettings>)
    ensures r.Ok? <==> 99 <= WeightSum(s) <= 101
    ensures r.Ok? ==> r.value == s
  {
    var total := WeightSum(s);
    if total - 100 > 1 || 100 - total > 1 then Err("RFM weights must sum to 1.0") else Ok(s)
  }

  lemma DefaultsAreValid()
    ensures FieldsValid(Defaults) && Clean(Defaults) == Ok(Defaults)
  {
  }

  /**
   * The settings table. save() forces the primary key to 1 and get_settings() is a
   * get-or-create on key 1, so the table never holds more than one row.
   */
  class SettingsTable {
    var rows: map<int, DiscountSettings>

    ghost predicate Valid()
      reads this
    {
      rows.Keys <= {1}
    }

    constructor ()
      ensures Valid() && rows == map[]
    {
      rows := map[];
    }

    /** save(): whatever primary key the caller had, the row is written under key 1. */
    method Save(s: DiscountSettings, pk: Option<int>)
      requires Valid()
      modifies this
      ensures Valid()
      ensures rows == map[1 := s]
      ensures |rows.Keys| == 1
    {
      rows := rows[1 := s];
      assert rows.Keys == {1};
    }

    /** get_settings(): the row under key 1, created with the defaults when absent. */
    method GetSettings() returns (s: DiscountSettings)
      requires Valid()
      modifies this
      ensures Valid()
      ensures 1 in rows && s == rows[1]
      ensures 1 in old(rows) ==> rows == old(rows)
      ensures 1 !in old(rows) ==> rows == map[1 := Defaults]
    {
      if 1 !in rows {
        rows := rows[1 := Defaults];
      }
      s := rows[1];
    }
  }

  datatype DiscountType = Percent | Fixed

  /**
   * A promo code row. value is hundredths of a percent for Percent codes and cents for
   * Fixed codes; maxUses None is unlimited.
   */
  datatype PromoCode = PromoCode(
    code: string,
    discountType: DiscountType,
    value: int,
    minOrderAmount: int,
    maxUses: Option<int>,
    maxUsesPerUser: int,
    isActive: bool,
    validFrom: int,
    validUntil: int,
    timesUsed: int)

  /** `max_uses and times_used >= max_uses`: a missing or zero cap never limits. */
  predicate UsageLimitReached(p: PromoCode)
  {
    p.maxUses.Some? && p.maxUses.value != 0 && p.timesUsed >= p.maxUses.value
  }

  predicate InValidityWindow(p: PromoCode, now: int)
  {
    p.validFrom <= now <= p.validUntil
  }

  /** PromoCode.is_valid(now); there is no per-user check here. */
  function IsValid(p: PromoCode, now: int): (b: bool)
    ensures b <==> p.isActive && InValidityWindow(p, now) && !UsageLimitReached(p)
    ensures p.maxUses.None? || p.maxUses == Some(0) ==> (b <==> p.isActive && InValidityWindow(p, now))
  {
    if !p.isActive then false
    else if now < p.validFrom || now > p.validUntil then false
    else if UsageLimitReached(p) then false
    else true
  }

  /** Using a code up raises times_used only, so a code that was valid stays valid until its cap is reached. */
  lemma {:induction false} IsValidAfterUse(p: PromoCode, now: int)
    requires IsValid(p, now)
    ensures IsValid(p.(timesUsed := p.timesUsed + 1), now) <==>
            !(p.maxUses.Some? && p.maxUses.value != 0 && p.timesUsed + 1 >= p.maxUses.value)
  {
  }
}

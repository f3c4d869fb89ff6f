// The discount manager and ajax views (discounts/views.py): promo code creation, activation and
// deletion, the promo preview of validate_promo_code_ajax, and the settings save gate.
// Money is in cents, percents in hundredths of a percent, instants in seconds.
module DiscountViews {
  import opened Wrappers
  import opened Arith
  import opened Text
  import opened DiscountModels
  import opened DiscountService

  const SecondsPerDay := 86400

  /** The two-decimal text of a Decimal stored with two places: 1050 prints as "10.50". */
  function DecimalText(hundredths: int): (r: string)
    ensures |r| >= 4 && r[|r| - 3] == '.'
    ensures r[0] == '-' <==> hundredths < 0
  {
    var a := if hundredths < 0 then -hundredths else hundredths;
    var whole := NatToString(a / 100);
    var cents := a % 100;
    (if hundredths < 0 then "-" else "") + whole + "." +
      [('0' as int + cents / 10) as char, ('0' as int + cents % 10) as char]
  }

  // ---------------------------------------------------------------- promo creation

  /** The create form as posted; each number is what Decimal or int makes of its text. */
  datatype PromoForm = PromoForm(
    code: string,
    discountType: DiscountType,
    discountValue: Field,
    minOrderAmount: Option<int>,
    maxUses: Field,
    maxUsesPerUser: Option<int>,
    validDays: Option<int>)

  /** What the create action did: a new code, the collected error messages, or a failed insert. */
  datatype CreateOutcome = Created(promo: PromoCode) | Invalid(errors: seq<string>) | CreateFailed

  /** `int(max_uses or 0) or None`: a blank or zero cap is stored as unlimited. */
  function MaxUsesOf(f: Field): (r: Option<int>)
    requires !f.Unparsable?
    ensures r.None? <==> f.Blank? || f == Parsed(0)
    ensures r.Some? ==> r == Some(f.value)
  {
    match f
    case Blank => None
    case Parsed(v) => if v == 0 then None else Some(v)
  }

  /** A stored code equal to `code`: exactly as the create view checks, or ignoring case as lookups match. */
  predicate CodeExists(promos: seq<PromoCode>, code: string, ignoreCase: bool)
  {
    exists i :: 0 <= i < |promos| && (if ignoreCase then EqualsIgnoreCase(promos[i].code, code) else promos[i].code == code)
  }

  /** The messages about the code: required, and not already present. */
  function CodeErrors(promos: seq<PromoCode>, code: string, ignoreCase: bool): seq<string>
  {
    if code == "" then ["Promo code is required"]
    else if CodeExists(promos, code, ignoreCase) then ["Promo code \"" + code + "\" already exists"]
    else []
  }

  /** The messages about the discount value: required, a number, and positive. */
  function ValueErrors(value: Field): seq<string>
  {
    match value
    case Blank => ["Discount value is required"]
    case Unparsable => ["Invalid discount value"]
    case Parsed(v) => if v <= 0 then ["Discount value must be greater than 0"] else []
  }

  /**
   * action 'create' with the duplicate check either exact or case-insensitive: the code is
   * stripped and upper-cased; the code and value errors are all collected; the insert itself
   * fails when another number does not parse. A new code is active, unused, and valid from now
   * for valid_days days.
   */
  function NewPromo(promos: seq<PromoCode>, f: PromoForm, now: int, ignoreCase: bool): (r: CreateOutcome)
    ensures r.Invalid? <==> CodeErrors(promos, Upper(Strip(f.code)), ignoreCase) + ValueErrors(f.discountValue) != []
    ensures r.Invalid? ==> r.errors == CodeErrors(promos, Upper(Strip(f.code)), ignoreCase) + ValueErrors(f.discountValue)
    ensures r.Created? <==> (Upper(Strip(f.code)) != "" && !CodeExists(promos, Upper(Strip(f.code)), ignoreCase) &&
      f.discountValue.Parsed? && f.discountValue.value > 0 && f.minOrderAmount.Some? && !f.maxUses.Unparsable? &&
      f.maxUsesPerUser.Some? && f.validDays.Some?)
    ensures r.Created? ==> r.promo == PromoCode(Upper(Strip(f.code)), f.discountType, f.discountValue.value,
      f.minOrderAmount.value, MaxUsesOf(f.maxUses), f.maxUsesPerUser.value, true, now, now + f.validDays.value * SecondsPerDay, 0)
  {
    var code := Upper(Strip(f.code));
    var errors := CodeErrors(promos, code, ignoreCase) + ValueErrors(f.discountValue);
    if errors != [] then Invalid(errors)
    else if f.minOrderAmount.None? || f.maxUses.Unparsable? || f.maxUsesPerUser.None? || f.validDays.None? then CreateFailed
    else Created(PromoCode(code, f.discountType, f.discountValue.value, f.minOrderAmount.value, MaxUsesOf(f.maxUses),
                           f.maxUsesPerUser.value, true, now, now + f.validDays.value * SecondsPerDay, 0))
  }

  /** The create action as written: the duplicate check compares the upper-cased code exactly. */
  function CreatePromoAsWritten(promos: seq<PromoCode>, f: PromoForm, now: int): CreateOutcome
  {
    NewPromo(promos, f, now, false)
  }

  /** The create action with the duplicate check matching codes as the promo lookup does, ignoring case. */
  function CreatePromo(promos: seq<PromoCode>, f: PromoForm, now: int): CreateOutcome
  {
    NewPromo(promos, f, now, true)
  }

  /** No two codes are equal ignoring case. */
  predicate CodesDistinct(promos: seq<PromoCode>)
  {
    forall i, j :: 0 <= i < j < |promos| ==> !EqualsIgnoreCase(promos[i].code, promos[j].code)
  }

  /**
   * As written, a code stored in lower case (the admin does not upper-case) does not stop the
   * manager from creating its upper-case twin, and from then on the case-insensitive lookup of
   * validate_promo_code finds two rows and raises.
   */
  lemma CaseTwinBreaksLookup(promos: seq<PromoCode>, f: PromoForm, now: int, i: int)
    requires CreatePromoAsWritten(promos, f, now).Created?
    requires 0 <= i < |promos| && EqualsIgnoreCase(promos[i].code, Upper(Strip(f.code)))
    ensures var q := CreatePromoAsWritten(promos, f, now).promo;
      LookupIExact(promos + [q], q.code) == Ambiguous &&
      ValidatePromoCode(promos + [q], [], 0, q.code, now).Err?
  {
    var q := CreatePromoAsWritten(promos, f, now).promo;
    var all := promos + [q];
    assert all[i] == promos[i] && all[|promos|] == q;
    assert EqualsIgnoreCase(q.code, q.code);
    TwoMatches(all, q.code, i, |promos|);
  }

  /** An instance: with "summer" stored, creating "summer" makes the code "SUMMER" and breaks the lookup. */
  lemma CaseTwinExample(now: int)
    ensures var p := PromoCode("summer", Percent, 1000, 0, None, 1, true, 0, 0, 0);
      var f := PromoForm("summer", Percent, Parsed(1000), Some(0), Blank, Some(1), Some(30));
      CreatePromoAsWritten([p], f, now).Created? &&
      LookupIExact([p, CreatePromoAsWritten([p], f, now).promo], "SUMMER") == Ambiguous
  {
    var p := PromoCode("summer", Percent, 1000, 0, None, 1, true, 0, 0, 0);
    var f := PromoForm("summer", Percent, Parsed(1000), Some(0), Blank, Some(1), Some(30));
    StripTrimmed("summer");
    assert Upper("summer") == "SUMMER";
    assert "summer" != "SUMMER";
    assert !CodeExists([p], "SUMMER", false);
    assert Lower("summer") == Lower("SUMMER");
    CaseTwinBreaksLookup([p], f, now, 0);
  }

  /** Creating a code that is new ignoring case keeps the codes distinct. */
  lemma CreateKeepsCodesDistinct(promos: seq<PromoCode>, f: PromoForm, now: int)
    requires CodesDistinct(promos)
    requires CreatePromo(promos, f, now).Created?
    ensures CodesDistinct(promos + [CreatePromo(promos, f, now).promo])
  {
    var q := CreatePromo(promos, f, now).promo;
    var all := promos + [q];
    forall i, j | 0 <= i < j < |all|
      ensures !EqualsIgnoreCase(all[i].code, all[j].code)
    {
      assert all[i] == promos[i];
      if j == |promos| {
        assert all[j] == q;
      } else {
        assert all[j] == promos[j];
      }
    }
  }

  /** With distinct codes the case-insensitive lookup finds at most one row, so it never raises. */
  lemma {:induction false} DistinctCodesNeverAmbiguous(promos: seq<PromoCode>, code: string)
    requires CodesDistinct(promos)
    ensures MatchIndices(promos, code) <= 1
    ensures LookupIExact(promos, code) != Ambiguous
  {
    MatchCount(promos, code);
    if promos != [] {
      var n := |promos| - 1;
      var init := promos[..n];
      assert forall i :: 0 <= i < |init| ==> init[i] == promos[i];
      DistinctCodesNeverAmbiguous(init, code);
      if EqualsIgnoreCase(promos[n].code, code) {
        forall i | 0 <= i < |init|
          ensures !EqualsIgnoreCase(init[i].code, code)
        {
          assert !EqualsIgnoreCase(promos[i].code, promos[n].code);
        }
        NoMatches(init, code);
      }
    }
  }

  lemma {:induction false} NoMatches(promos: seq<PromoCode>, code: string)
    requires forall i :: 0 <= i < |promos| ==> !EqualsIgnoreCase(promos[i].code, code)
    ensures MatchIndices(promos, code) == 0
  {
    if promos != [] {
      var init := promos[..|promos| - 1];
      assert forall i :: 0 <= i < |init| ==> init[i] == promos[i];
      NoMatches(init, code);
    }
  }

  /** The exact and the case-insensitive duplicate checks agree when no stored code matches ignoring case. */
  lemma AsWrittenAgreesWithoutCaseTwin(promos: seq<PromoCode>, f: PromoForm, now: int)
    requires !CodeExists(promos, Upper(Strip(f.code)), true)
    ensures CreatePromoAsWritten(promos, f, now) == CreatePromo(promos, f, now)
  {
  }

  /**
   * action 'create': a created code is appended to the promo table. The duplicate check is
   * exact, so distinct codes stay distinct only when no stored code matches the new one
   * ignoring case (CaseTwinBreaksLookup shows the other case).
   */
  method CreatePromoCode(tables: DiscountTables, f: PromoForm, now: int) returns (outcome: CreateOutcome)
    modifies tables
    ensures outcome == CreatePromoAsWritten(old(tables.promos), f, now)
    ensures outcome.Created? ==> tables.promos == old(tables.promos) + [outcome.promo]
    ensures !outcome.Created? ==> tables.promos == old(tables.promos)
    ensures tables.usages == old(tables.usages) && tables.history == old(tables.history)
    ensures old(CodesDistinct(tables.promos)) && !CodeExists(old(tables.promos), Upper(Strip(f.code)), true) ==>
      CodesDistinct(tables.promos)
  {
    outcome := CreatePromoAsWritten(tables.promos, f, now);
    if outcome.Created? {
      if CodesDistinct(tables.promos) && !CodeExists(tables.promos, Upper(Strip(f.code)), true) {
        AsWrittenAgreesWithoutCaseTwin(tables.promos, f, now);
        CreateKeepsCodesDistinct(tables.promos, f, now);
      }
      tables.promos := tables.promos + [outcome.promo];
    }
  }

  /** action 'toggle': the code's is_active flips and nothing else changes; an unknown code is a 404. */
  method TogglePromoCode(tables: DiscountTables, k: int) returns (found: bool)
    modifies tables
    ensures found <==> 0 <= k < |old(tables.promos)|
    ensures found ==> tables.promos == old(tables.promos)[k := old(tables.promos)[k].(isActive := !old(tables.promos)[k].isActive)]
    ensures !found ==> tables.promos == old(tables.promos)
    ensures tables.usages == old(tables.usages) && tables.history == old(tables.history)
    ensures old(CodesDistinct(tables.promos)) ==> CodesDistinct(tables.promos)
  {
    found := 0 <= k < |tables.promos|;
    if found {
      ghost var before := tables.promos;
      tables.promos := tables.promos[k := tables.promos[k].(isActive := !tables.promos[k].isActive)];
      assert forall i :: 0 <= i < |before| ==> tables.promos[i].code == before[i].code;
    }
  }

  /**
   * action 'delete': the code's row goes and, by the cascade, so do its usage rows; an unknown
   * code is a 404.
   */
  method DeletePromoCode(tables: DiscountTables, k: int) returns (found: bool)
    modifies tables
    ensures found <==> 0 <= k < |old(tables.promos)|
    ensures found ==> tables.promos == old(tables.promos)[..k] + old(tables.promos)[k + 1..]
    ensures found ==> tables.usages == DropUsagesOf(old(tables.usages), old(tables.promos)[k].code)
    ensures found ==> forall u :: CountUses(tables.usages, old(tables.promos)[k].code, u) == 0
    ensures !found ==> tables.promos == old(tables.promos) && tables.usages == old(tables.usages)
    ensures tables.history == old(tables.history)
    ensures old(CodesDistinct(tables.promos)) ==> CodesDistinct(tables.promos)
  {
    found := 0 <= k < |tables.promos|;
    if found {
      ghost var before := tables.promos;
      tables.usages := DropUsagesOf(tables.usages, tables.promos[k].code);
      tables.promos := tables.promos[..k] + tables.promos[k + 1..];
      assert forall i :: 0 <= i < |tables.promos| ==> tables.promos[i] == before[if i < k then i else i + 1];
    }
  }

  /** Toggling the same code twice restores the promo table. */
  method ToggleTwice(tables: DiscountTables, k: int)
    modifies tables
    ensures tables.promos == old(tables.promos)
    ensures tables.usages == old(tables.usages) && tables.history == old(tables.history)
  {
    var first := TogglePromoCode(tables, k);
    var second := TogglePromoCode(tables, k);
  }

  // ---------------------------------------------------------------- ajax preview

  /** The JSON reply of validate_promo_code_ajax; ServerError is an exception escaping the view. */
  datatype AjaxReply =
    | Rejected(message: string)
    | Accepted(message: string, discountAmount: int, discountType: DiscountType, discountValue: int)
    | ServerError

  /** The preview amount: a percent of the posted total quantized to cents with ties to even, or the fixed value. */
  function PreviewAmount(p: PromoCode, orderTotal: int): (a: int)
    ensures p.discountType == Fixed ==> a == p.value
    ensures p.discountType == Percent ==> -10000 <= 2 * orderTotal * p.value - 20000 * a <= 10000
  {
    match p.discountType
    case Percent => DivHalfEven(orderTotal * p.value, 10000)
    case Fixed => p.value
  }

  /**
   * validate_promo_code_ajax: the posted total must parse (it is parsed first), the stripped
   * code must be non-empty and pass validate_promo_code, and the total must reach the code's
   * minimum order amount.
   */
  function AjaxValidate(rawCode: string, orderTotal: Option<int>, promos: seq<PromoCode>, usages: seq<Usage>,
                        user: int, now: int): (r: AjaxReply)
    ensures orderTotal.None? ==> r == ServerError
    ensures orderTotal.Some? && Strip(rawCode) == "" ==> r == Rejected("Please enter a promo code")
    ensures r.Accepted? <==> (orderTotal.Some? && Strip(rawCode) != "" &&
      ValidatePromoCode(promos, usages, user, Strip(rawCode), now).Ok? &&
      ValidatePromoCode(promos, usages, user, Strip(rawCode), now).value.isValid &&
      LookupIExact(promos, Strip(rawCode)).promo.minOrderAmount <= orderTotal.value)
    ensures r.Accepted? ==> var p := LookupIExact(promos, Strip(rawCode)).promo;
      r.discountAmount == PreviewAmount(p, orderTotal.value) && r.discountType == p.discountType &&
      r.discountValue == p.value
    ensures r == ServerError <==> (orderTotal.None? ||
      (Strip(rawCode) != "" && LookupIExact(promos, Strip(rawCode)) == Ambiguous))
  {
    if orderTotal.None? then ServerError
    else
      var code := Strip(rawCode);
      if code == "" then Rejected("Please enter a promo code")
      else match ValidatePromoCode(promos, usages, user, code, now)
        case Err(_) => ServerError
        case Ok(check) =>
          if !check.isValid then Rejected(check.message)
          else
            var p := check.promo.value;
            if p.minOrderAmount > orderTotal.value then Rejected("Minimum order amount: $" + DecimalText(p.minOrderAmount))
            else
              var text := if p.discountType == Percent then DecimalText(p.value) + "%" else "$" + DecimalText(p.value);
              Accepted("Promo code applied: " + text + " off", PreviewAmount(p, orderTotal.value), p.discountType, p.value)
  }

  /**
   * The preview and the checkout deduction agree on a code that reaches its minimum, except
   * that on an exact half cent the preview rounds to even and checkout rounds up: they then
   * differ by one cent.
   */
  lemma PreviewMatchesCheckout(p: PromoCode, orderTotal: int)
    requires orderTotal >= p.minOrderAmount
    requires orderTotal * p.value >= 0
    ensures p.discountType == Fixed ==> PreviewAmount(p, orderTotal) == PromoDeduction(p, orderTotal)
    ensures p.discountType == Percent && (orderTotal * p.value) % 10000 != 5000 ==>
      PreviewAmount(p, orderTotal) == PromoDeduction(p, orderTotal)
    ensures 0 <= PromoDeduction(p, orderTotal) - PreviewAmount(p, orderTotal) <= 1
  {
    if p.discountType == Percent {
      var n := orderTotal * p.value;
      var e := DivHalfEven(n, 10000);
      var u := DivHalfUp(n, 10000);
      assert 20000 * u - 10000 <= 2 * n < 20000 * u + 10000;
      assert -10000 <= 2 * n - 20000 * e <= 10000;
      if n % 10000 != 5000 {
        assert n == 10000 * (n / 10000) + n % 10000;
      }
    }
  }

  // ---------------------------------------------------------------- settings

  /** What a settings POST did. */
  datatype SettingsOutcome = SettingsSaved | InvalidValue | ValidationFailed

  /**
   * manager_discount_settings: every posted field must parse (None otherwise), then full_clean
   * runs the field validators and the weight-sum check, and only then is the row saved.
   */
  function SettingsGate(posted: Option<DiscountSettings>): (r: SettingsOutcome)
    ensures r == SettingsSaved <==> posted.Some? && FieldsValid(posted.value) && Clean(posted.value).Ok?
    ensures r == InvalidValue <==> posted.None?
  {
    match posted
    case None => InvalidValue
    case Some(s) => if FieldsValid(s) && Clean(s).Ok? then SettingsSaved else ValidationFailed
  }

  /** The POST handler: the singleton row is replaced only when the gate lets the posted settings through. */
  method SaveSettings(table: SettingsTable, posted: Option<DiscountSettings>) returns (outcome: SettingsOutcome)
    requires table.Valid()
    modifies table
    ensures outcome == SettingsGate(posted)
    ensures outcome == SettingsSaved ==> table.rows == map[1 := posted.value]
    ensures outcome != SettingsSaved ==> table.rows == old(table.rows)
    ensures table.Valid()
    ensures outcome == SettingsSaved ==> FieldsValid(table.rows[1]) && 99 <= WeightSum(table.rows[1]) <= 101
  {
    outcome := SettingsGate(posted);
    if outcome == SettingsSaved {
      table.Save(posted.value, Some(1));
    }
  }

  /** Any posted settings whose weights are off by more than 0.01 are never stored. */
  lemma UnbalancedWeightsRejected(s: DiscountSettings)
    requires WeightSum(s) < 99 || WeightSum(s) > 101
    ensures SettingsGate(Some(s)) == ValidationFailed
  {
  }
}

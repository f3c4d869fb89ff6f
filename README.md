# Coffee shop core, modelled in Dafny

This project models the business rules of a Django coffee-shop application and proves
properties of them. It covers:

- **Personal discounts** (`discounts/`): the RFM (recency, frequency, monetary) scores of a
  customer's completed orders, the loyalty, birthday and promo-code bonuses, the cap on the
  total percent, the discount amount, the history rows and promo-code usage, the settings
  singleton and the manager's promo-code creation.
- **Sales forecasting** (`analytics/services.py`): the daily sales series, moving average,
  simple exponential smoothing, Holt-Winters with weekly seasonality, the accuracy metrics and
  the forecast summary.
- **Inventory planning** (`analytics/inventory_service.py`): per-product demand, safety stock,
  reorder point, demand trend and pattern, recommended order quantity and the summary.
- **Recommendations** (`recommendations/`): interaction weights, the user profile, Jaccard
  similarities, the content, collaborative and popularity scores, the hybrid ranking, the
  similarity table and the settings singleton.
- **Cart and orders** (`orders/`): cart lines, merging a session cart, the promo code in the
  session, placing, cancelling and updating an order, the order number and status history, the
  checkout and contact forms, and the decimal template filters.
- **Catalog, accounts, contact and reviews**: product prices per weight, the product form and
  slug generation, usernames, phones, e-mail addresses, the birth-date cooldown, e-mail
  verification and password-reset tokens, the contact inbox and the review rules.

Units and parameters:

- Money is in cents, percents in hundredths of a percent, RFM scores in thousandths and RFM
  weights in hundredths. `Arith.DivHalfUp` is Decimal's ROUND_HALF_UP on an exact ratio. The
  discount engine computes with Decimals except in two steps, the recency score and the discount
  curve, which round the text of a binary float; the model rounds the exact value there (see
  "Left out").
- The forecasting, inventory and recommendation code computes with Python floats. The model
  computes over `real`, and `round` is half-to-even on the exact real.
- The clock is passed in as integers (a date, days, seconds). The random order number is any
  free four-digit number. Generated tokens and reset codes are parameters, unused and of the
  source's shape. Square
  root, `exp` and `**` are function parameters, bundled with the laws the proofs use. Slug
  generation and a product's unit price are parameters too.
- Database tables are sequences or maps held in classes. Their `Valid()` predicates state the
  table's uniqueness constraints, and every method that changes a table keeps them.

## Model

| member | source | states |
|---|---|---|
| DiscountModels.Clean | discounts/models.py:110-117 | accepted exactly when the three RFM weights sum to 1.00 within 0.01; the settings come back unchanged |
| DiscountModels.DefaultsAreValid | discounts/models.py:14-98 | the field defaults meet every validator bound and pass the weight-sum check |
| DiscountModels.SettingsTable.Save | discounts/models.py:119-122 | whatever key the caller had, the row is stored under key 1, so the table holds that single row |
| DiscountModels.SettingsTable.GetSettings | discounts/models.py:124-128 | get-or-create on key 1: an existing row is returned untouched, otherwise a row with the defaults is created; at most one row ever exists |
| DiscountModels.IsValid | discounts/models.py:240-251 | true exactly when the code is active, now lies in [valid_from, valid_until] and no non-zero global cap is reached; a missing or zero cap never limits; there is no per-user check |
| DiscountModels.IsValidAfterUse | discounts/models.py:249-250 | one more use keeps a valid code valid exactly when it does not reach a non-zero global cap |
| DiscountService.RecencyScore | discounts/services.py:85-108 | R lies in [0, 1]; it is 0 without a last order or once recency_max_days have passed, otherwise 1 - days/max_days rounded half-up to three decimals |
| DiscountService.RecencyNonIncreasing | discounts/services.py:97-108 | R never grows as the last order gets older |
| DiscountService.FrequencyScore | discounts/services.py:110-124 | F lies in [0, 1]; it is 1 at or above the target, otherwise orders/target rounded half-up to three decimals |
| DiscountService.MonetaryScore | discounts/services.py:126-143 | M lies in [0, 1]; 0 for a zero target, 1 at or above the target, otherwise spent/target rounded half-up |
| DiscountService.RfmScore | discounts/services.py:145-171 | the composite is w_r*R + w_f*F + w_m*M rounded half-up to three decimals and never exceeds the weight sum |
| DiscountService.CleanAllowsCompositeAboveOne | discounts/models.py:110-117 | weights 0.34/0.34/0.33 pass the 0.01 tolerance and give a perfect customer a composite of 1.010, above the documented range |
| DiscountService.DiscountFromRfm | discounts/services.py:173-193 | the curve gives the base rate at rfm 0, the max rate at rfm 1, and a rate between the two for rfm in [0, 1] |
| DiscountService.DiscountFromRfmMonotone | discounts/services.py:173-193 | with the base rate at most the max rate, a higher composite score in [0, 1] never gives a lower discount |
| DiscountService.MostRecent | discounts/services.py:64-65 | the last order's age is the age of some completed order and no older than any of them |
| DiscountService.Recalculate | discounts/services.py:43-83 | counts and sums the completed orders, has a last-order date exactly when there are orders, keeps every score in range, and gives zero scores and the base rate to a customer without orders |
| DiscountService.FirstPurchaseBonus | discounts/services.py:195-211 | a customer with no completed order gets exactly the configured first-purchase percent, and any other customer gets 0; at most 50 % under the validator bounds |
| DiscountService.ThisYearBirthday | discounts/services.py:226-231 | this year's occurrence keeps the month; it is the birth date moved to this year when that date exists, February 28 otherwise |
| DiscountService.BirthdayBonusAsWritten | discounts/services.py:213-247 | the bonus exactly when this year's or last year's occurrence is within birthday_discount_days of today; no birth date gives 0 |
| DiscountService.BirthdayNextYearMissed | discounts/services.py:239-247 | born January 2, shopping December 30: next year's birthday is 3 days away, yet the rule as written grants nothing |
| DiscountService.BirthdayBonus | discounts/services.py:213-247 | the corrected rule grants only 0 or the bonus, and grants it whenever the rule as written does |
| DiscountService.BirthdayBonusCoversEveryOccurrence | discounts/services.py:239-247 | with the validated window of at most 30 days, any occurrence of the birthday in any year within the window grants the bonus |
| DiscountService.MatchesIExact | discounts/services.py:259 | the case-insensitive lookup matches exactly the rows whose code equals the given one ignoring case |
| DiscountService.LookupIExact | discounts/services.py:258-261 | not found exactly when no code matches ignoring case; a found row matches |
| DiscountService.ValidatePromoCode | discounts/services.py:249-284 | checks, in order: existence, is_active, valid_from, valid_until, a non-zero global cap, the per-user cap; the first failure's message, success only with the promo; an ambiguous lookup raises |
| DiscountService.ValidateAgreesWithIsValid | discounts/services.py:263-284 | a found code passes exactly when the model's is_valid holds and the user is under the per-user cap |
| DiscountService.MarkUsed | orders/views.py:354-355 | the increment the checkout intends: `times_used` grows by one on the rows the code matches and on no others (as written it never runs; see Findings) |
| DiscountService.DropUsagesOf | discounts/models.py:257-258 | the cascade of a code's deletion: no usage of that code remains, every other code keeps its per-user counts, and only existing rows are kept |
| DiscountService.PromoDeduction | discounts/services.py:371-381 | nothing below the minimum order amount; otherwise the fixed value, or the percent of the original total rounded half-up to cents |
| DiscountService.Settle | discounts/services.py:394-401 | discount plus final is the order total, the final is never negative, and on overshoot the discount is the whole total |
| DiscountService.PercentItemsFacts | discounts/services.py:316-355 | the first-purchase bonus never stacks with the RFM discount; it is listed, at the configured percent, exactly for a customer without completed orders, without an RFM discount and with a positive bonus setting; the RFM entry appears exactly when its percent is positive; every entry is positive |
| DiscountService.StackPercents | discounts/services.py:310-360 | the percent entries in order, and a total that is their sum capped at max_total_discount |
| DiscountService.PercentItems | discounts/services.py:316-355 | the RFM, first-purchase and birthday entries in that order, each listed only when positive and the first-purchase one only instead of RFM; its properties are DiscountService.PercentItemsFacts |
| DiscountService.ApplyPromo | discounts/services.py:367-392 | a non-empty code is valid exactly when validate_promo_code says so; a valid code's deduction uses the original total, and its entry is listed only when the minimum is reached |
| DiscountService.CalculateDiscount | discounts/services.py:286-424 | inactive settings give a zero discount with final = total; otherwise final + discount == total, final >= 0, percent <= cap, the birthday entry follows the rule as written, the promo is valid exactly when validated, and the breakdown is the percent entries then the promo entry |
| DiscountService.HistoryRowAsWritten | discounts/services.py:435-459 | a promo row records its amount; a percent row records its percent and its share of the percent-based amount taken against the capped total percent |
| DiscountService.HistoryOverstatesCappedDiscount | discounts/services.py:442-447 | RFM 20 % plus birthday 10 % capped at 25 % on 100.00 grants 25.00 but records 30.00 |
| DiscountService.HistoryRowFor | discounts/services.py:435-459 | the corrected share is taken against the sum of the listed percents, and it equals the rule as written whenever the cap did not apply |
| DiscountService.SaveDiscountHistory | discounts/services.py:426-459 | one row per breakdown entry, in order, each split as written against the capped total percent |
| DiscountService.HistoryRowsAddUp | discounts/services.py:435-459 | the recorded percent amounts add up to the percent-based discount, within half a cent per entry |
| DiscountService.HistoryRowsAddUpUncapped | discounts/services.py:435-459 | when the cap did not apply, the rows as written add up to the percent-based discount within half a cent per entry |
| DiscountService.DiscountCurveData | discounts/services.py:462-487 | 101 points at rfm 0.00, 0.01, ..., 1.00, each the curve value rounded to two places; the first is the base rate and the last the max rate |
| DiscountViews.DecimalText | discounts/views.py:63-71 | the two-decimal text of a stored amount, as the f-strings print a Decimal: a point before its last two digits and a sign exactly when negative |
| DiscountViews.MaxUsesOf | discounts/views.py:228 | a blank or zero cap is stored as unlimited; any other is kept |
| DiscountViews.NewPromo | discounts/views.py:193-236 | the code is stripped and upper-cased; every code and value error is collected; otherwise an active, unused code valid from now for valid_days days is created |
| DiscountViews.CaseTwinBreaksLookup | discounts/views.py:204 | as written, creating the upper-case twin of a stored lower-case code succeeds and the case-insensitive lookup then raises |
| DiscountViews.CaseTwinExample | discounts/views.py:204 | with "summer" stored, creating "summer" stores "SUMMER" and the lookup of "SUMMER" becomes ambiguous |
| DiscountViews.CreateKeepsCodesDistinct | discounts/views.py:193-236 | the corrected check keeps codes distinct ignoring case |
| DiscountViews.DistinctCodesNeverAmbiguous | discounts/services.py:258-261 | with codes distinct ignoring case the lookup matches at most one row and never raises |
| DiscountViews.CreatePromoCode | discounts/views.py:193-236 | the outcome is the exact duplicate check as written; the table grows by exactly the created code and is otherwise unchanged; codes distinct ignoring case stay so when no stored code equals the new one ignoring case |
| DiscountViews.AsWrittenAgreesWithoutCaseTwin | discounts/views.py:204 | without a stored code equal to the new one ignoring case, the check as written and the corrected one decide alike |
| DiscountViews.TogglePromoCode | discounts/views.py:238-243 | an existing code's is_active flips and nothing else changes; an unknown code is a 404 |
| DiscountViews.DeletePromoCode | discounts/views.py:245-250 | an existing code's row is removed together with its usage rows (the cascade of discounts/models.py:257-258), so no use of that code remains; the other codes' usages, the history and the other rows are unchanged; an unknown code is a 404 |
| DiscountViews.ToggleTwice | discounts/views.py:238-243 | two toggles of the same code through the view restore the promo table and leave the usage and history tables alone |
| DiscountViews.PreviewAmount | discounts/views.py:66-71 | the fixed value, or the percent of the posted total quantized to cents with ties to even |
| DiscountViews.AjaxValidate | discounts/views.py:42-79 | an unparsable total raises; an empty code is refused; a reply is accepted exactly when the code validates and the total reaches its minimum, with the preview amount |
| DiscountViews.PreviewMatchesCheckout | discounts/views.py:66-71 | the preview equals the checkout deduction except on an exact half cent, where it is one cent lower |
| DiscountViews.SettingsGate | discounts/views.py:138-175 | settings are saved exactly when every field parses, every validator bound holds and the weights pass the sum check |
| DiscountViews.SaveSettings | discounts/views.py:138-175 | the single row is replaced only when the gate lets the posted settings through, and then it satisfies the bounds and the weight check |
| DiscountViews.UnbalancedWeightsRejected | discounts/views.py:160 | weights off by more than 0.01 are never stored |
| OrderModels.Total | orders/models.py:32-38 | the total exceeds the subtotal by exactly the fixed 2.00 shipping |
| OrderModels.TotalPrice | orders/models.py:62-64 | a line's total is its unit price times its quantity; see OrderModels.SingleLine |
| OrderModels.TotalItems | orders/models.py:24-26 | the sum of the line quantities; OrderModels.TotalsAppend and OrderModels.TotalItemsAtLeastLines state its properties |
| OrderModels.Subtotal | orders/models.py:28-30 | the sum of the line totals; OrderModels.TotalsAppend and OrderModels.SubtotalNonNegative state its properties |
| OrderModels.TotalsAppend | orders/models.py:24-30 | item counts, subtotals and per-key quantities of two groups of lines add up |
| OrderModels.SingleLine | orders/models.py:58-64 | one line contributes its quantity to the count and unit price times quantity to the subtotal |
| OrderModels.QuantityOfLine | orders/models.py:53 | with one line per (product, weight, bean type), a key's quantity is its line's, and an absent key holds nothing |
| OrderModels.DropLinesUsing | orders/models.py:45-46 | the cascade of deleting a weight or a bean type: exactly the lines that do not point at it remain |
| OrderModels.DropLinesMeaning | orders/models.py:45-46 | after the cascade the keys using the deleted choice hold nothing, every other key keeps its quantity, and one line per key is kept |
| OrderModels.SubtotalNonNegative | orders/models.py:28-38 | non-negative prices give a non-negative subtotal; an empty cart costs just the shipping |
| OrderModels.TotalItemsAtLeastLines | orders/models.py:24-26 | with positive quantities the item count is at least the number of lines, and zero exactly for an empty cart |
| OrderModels.CanCancel | orders/models.py:137-140 | a processing or packing order; OrderModels.CanCancelExactly states it |
| OrderModels.CanCancelExactly | orders/models.py:137-140 | a customer can cancel exactly a processing or packing order, and none of the later statuses |
| OrderModels.StatusDisplayClass | orders/models.py:142-153 | the fixed badge class of a known status, 'bg-secondary' for any other |
| OrderModels.StatusClassesDistinct | orders/models.py:145-152 | two different statuses get different badge classes |
| OrderModels.UnknownStatusLooksCancelled | orders/models.py:150-153 | an unknown status shows the badge of a customer cancellation |
| OrderModels.AssignOrderNumber | orders/models.py:128-135 | an order that has a number keeps it; otherwise it gets a number from 1000 to 9999 that no other order uses |
| OrderModels.FreeOrderNumberExists | orders/models.py:132-134 | while fewer than 9000 numbers are in use a free one exists, so the drawing loop can end |
| OrderModels.FullTableHasNoFreeNumber | orders/models.py:130-134 | once all 9000 four-digit numbers are taken, no draw is free, so the loop as written never ends |
| OrderModels.AssignOrderNumberOrFail | orders/models.py:128-135 | a set number is kept; otherwise a free number from 1000 to 9999 when one exists, and an error exactly when all 9000 are taken |
| OrderViews.Find | orders/views.py:23-27 | the first line holding the key, or none when no line holds it |
| OrderViews.ReplaceLine | orders/views.py:141-143 | replacing a line moves each total by the difference between the new and the old line |
| OrderViews.RemoveLineTotals | orders/views.py:180-185 | deleting a line takes its quantity and amount off the totals |
| OrderViews.CanAdd | orders/views.py:104-114 | the cart line's new quantity would not be negative; a positive quantity always passes |
| OrderViews.AddLine | orders/views.py:104-114 | get_or_create then +=: a new line with the quantity, or the key's line grown by it; OrderViews.AddLineMeaning states its effect |
| OrderViews.SetLine | orders/views.py:141-143 | the line's quantity replaced; OrderViews.SetLineMeaning states its effect |
| OrderViews.RemoveLine | orders/views.py:144-145 | the line deleted; OrderViews.RemoveLineMeaning states its effect |
| OrderViews.AddLineMeaning | orders/views.py:104-114 | adding raises the key's quantity by exactly the amount and leaves every other key alone, keeps one line per key, and moves the count and subtotal by that amount and its price |
| OrderViews.SetLineMeaning | orders/views.py:141-143 | setting a quantity gives the key exactly that quantity and leaves the other keys alone |
| OrderViews.RemoveLineMeaning | orders/views.py:144-145 | removing a line empties its key and leaves the other keys alone |
| OrderViews.MergeAll | orders/views.py:22-33 | merging keeps one line per key |
| OrderViews.MergeAllMeaning | orders/views.py:19-35 | no quantity is lost or invented: each key ends with the sum of its quantities in both carts, and counts and subtotals add up |
| OrderViews.Cart.AddToCart | orders/views.py:88-121 | an unknown or inactive product is a 404; without a weight and a bean type nothing changes; an unknown weight or bean type is a 404; otherwise the key's line is created with the quantity or grows by it; nothing changes unless it succeeds, and only then, for a signed-in customer, is the 'cart' interaction recorded and their cached profile dropped |
| OrderViews.Cart.UpdateCartItem | orders/views.py:134-145 | an unknown item is a 404; a positive quantity replaces the line's, anything else deletes the line |
| OrderViews.Cart.RemoveCartItem | orders/views.py:180-185 | an unknown item is a 404; otherwise the line is deleted |
| OrderViews.Cart.MergeSessionCart | orders/views.py:19-35 | the user's lines become the merge of both carts and the session cart ends empty |
| OrderViews.DropLinesFromCarts | orders/models.py:45-46 | the cascade reaches every cart: each loses exactly the lines that point at the deleted weight or bean type and keeps one line per key |
| OrderViews.PromoReplyFor | orders/views.py:220-275 | an empty code or an empty cart is refused; a code is applied exactly when it validates and the subtotal reaches its minimum; an ambiguous lookup gives the generic error |
| OrderViews.ValidateMessages | orders/views.py:229-270 | no message of validate_promo_code is the empty-code message |
| OrderViews.AppliedCodeCounts | orders/views.py:247-255 | a code stored in the session validated at that moment and its deduction is not suppressed by the minimum |
| OrderViews.ApplyPromoCode | orders/views.py:229-270 | the session stores the code only when it is applied |
| OrderViews.LinesOf | orders/views.py:320-330 | one order line per cart line, in order, with its unit and total price |
| OrderViews.LinesAddUp | orders/views.py:320-330 | the order lines add up to the cart's subtotal |
| OrderViews.OrderFromCart | orders/views.py:306-330 | the order's fields come from the form, the cart's subtotal and lines and the discount's amounts, with promo_code_used set only for a valid code |
| OrderViews.AmountsFor | orders/views.py:284-302 | with an active discount the order takes its percent and amount and a total of final amount plus shipping; otherwise no discount and cart.total |
| OrderViews.AmountsBalance | orders/views.py:284-317 | an order's total plus its discount is always its subtotal plus shipping |
| OrderViews.PromoUsed | orders/views.py:316 | promo_code_used is the code exactly when one was given and found valid |
| OrderViews.HistoryRowsFor | orders/views.py:339-342 | one discount history row per breakdown entry, split as written; when the cap did not apply the percent rows add up to the percent-based discount within half a cent each |
| OrderViews.Order.Cancel | orders/views.py:398-416 | only the order's customer reaches it; only a processing or packing order is cancelled, with one history row saying so |
| OrderViews.Order.UpdateStatus | orders/views.py:479-495 | an invalid status changes nothing; a valid one is saved with the comment, and a history row is added only when the status changed |
| OrderViews.CancelledStaysCancelled | orders/models.py:137-140 | cancelled, shipping and completed orders cannot be cancelled by the customer |
| OrderViews.RecordDiscount | orders/views.py:338-359 | as written: the history rows for the discount are added, and the promo codes and usage rows are unchanged, because the usage row's create raises TypeError and the handler swallows it |
| OrderViews.RecordDiscountIntended | orders/views.py:338-359 | the evidently intended recording: the history rows, and for a promo code found valid one usage row for the customer and one more use on the code's row |
| OrderViews.CheckoutLeavesPromoUnused | orders/views.py:348-358 | after a checkout as written, every code validates for every customer exactly as before it |
| OrderViews.SingleUseCodeStaysValid | orders/views.py:348-358 | as written, a code with one global use and one use per customer is still valid for the same customer after a checkout that applied it |
| OrderViews.IntendedCheckoutCountsUse | orders/views.py:347-355 | with the intended recording, the lookup finds the code's row with one more use, and the customer has one more usage of it |
| OrderViews.IntendedCheckoutUsesUpCode | orders/views.py:347-355 | with the intended recording, a checkout that uses a code's last global use or the customer's last use makes the customer's next validation of that code fail |
| OrderViews.LookupOfMarkUsed | orders/views.py:347-355 | a code the lookup finds is found again after its use is marked, with times_used one higher |
| OrderViews.PlaceOrder | orders/views.py:278-372 | an empty cart places nothing and changes nothing; otherwise an order with a fresh number, the cart's lines and the discount's amounts is created, each line's product gets one more 'purchase' interaction, the customer's cached profile is dropped, the discount history is recorded while the promo codes and usage rows stay as they were (OrderViews.RecordDiscount), and the cart and the session code are cleared |
| OrderViews.PurchasedProducts | orders/views.py:320-334 | the product of each cart line, in order |
| OrderViews.RecordPurchases | orders/views.py:320-336 | the interaction table after the loop is the one with a 'purchase' recorded for each line's product in turn, and the customer's cached profile is gone |
| OrderViews.FoundMatchesOneRow | orders/views.py:347-355 | for the intended recording: a code the lookup finds matches one row, so only that row's times_used grows by one |
| ProductModels.PriceForWeight | products/models.py:94-99 | the exact price (base times weight multiplier, times the bean multiplier when one is given) rounded to the nearest cent |
| ProductModels.UnitMultipliersKeepPrice | products/models.py:94-99 | multipliers of 1.00 leave the base price unchanged |
| ProductModels.PriceNonNegative | products/models.py:94-99 | non-negative price and multipliers give a non-negative price |
| ProductModels.Lightest | products/models.py:104 | the first weight with the fewest grams |
| ProductModels.MinPrice | products/models.py:101-107 | the base price without weights; otherwise the price of a weight with the fewest grams |
| ProductModels.ApprovedRatings | products/models.py:112 | the approved ratings are among the product's reviews |
| ProductModels.ReviewsCount | products/models.py:117-120 | the number of approved reviews; ProductModels.ReviewsCountMeaning states its bounds |
| ProductModels.ReviewsCountMeaning | products/models.py:117-120 | the count is the number of approved reviews, at most all reviews, and zero exactly when none is approved |
| ProductModels.ApprovedRatingsBounds | products/models.py:112-114 | approved ratings stay within the bounds every rating respects |
| ProductModels.AverageRating | products/models.py:109-115 | 0 without approved reviews, otherwise their mean rounded to one decimal; ProductModels.AverageRatingBounds states its range |
| ProductModels.AverageRatingBounds | products/models.py:109-115 | on a 1 to 5 scale the average is 0 without approved reviews and otherwise between 1 and 5 |
| ProductModels.Round1OnScale | products/models.py:114 | rounding to one decimal keeps a value between the whole-number bounds it had |
| ProductModels.JoinNames | products/models.py:122-125 | `', '.join(names)`; ProductModels.JoinNamesLength states its length |
| ProductModels.JoinNamesLength | products/models.py:122-125 | the names in order, one ", " between neighbours: the length is the names' total plus two per separator |
| DecimalTags.ToDecimal | orders/templatetags/decimal_tags.py:14-15 | a falsy operand takes the default, a number is itself, and only a non-empty text that is not a number fails to convert |
| DecimalTags.FilterAsWritten | orders/templatetags/decimal_tags.py:7-62 | a filter raises exactly when an operand fails to convert, and never hands back its input |
| DecimalTags.InvalidTextRaises | orders/templatetags/decimal_tags.py:17-18 | a text that is not a number makes every filter raise instead of returning the value |
| DecimalTags.MultiplyByZeroAsWritten | orders/templatetags/decimal_tags.py:43 | multiplying 5 by the number 0 gives 5, because the falsy 0 becomes 1 |
| DecimalTags.ArgDecimal | orders/templatetags/decimal_tags.py:14-18 | a number is itself, and the argument fails exactly when it fails to convert |
| DecimalTags.Compute | orders/templatetags/decimal_tags.py:16-60 | the arithmetic of each filter once both operands converted: sum, difference, product, or value times (1 - percent/100) quantized to cents; DecimalTags.AddThenSubtract and DecimalTags.ApplyDiscountBounds state its properties |
| DecimalTags.ApplyFilter | orders/templatetags/decimal_tags.py:7-62 | the corrected filters never raise: a value that fails comes back as it was, a failing argument gives back the converted value, otherwise the filter's arithmetic |
| DecimalTags.ApplyFilterAgrees | orders/templatetags/decimal_tags.py:7-62 | the corrected filters agree with the written ones wherever those do not raise, a zero multiplier aside |
| DecimalTags.MultiplyByZero | orders/templatetags/decimal_tags.py:35-46 | the corrected multiply by zero gives zero |
| DecimalTags.AddThenSubtract | orders/templatetags/decimal_tags.py:7-32 | subtracting what was added gives the value back |
| DecimalTags.FalsyArgumentIsNeutral | orders/templatetags/decimal_tags.py:14-43 | a missing or empty argument leaves the value alone for add, subtract and multiply |
| DecimalTags.ApplyDiscountBounds | orders/templatetags/decimal_tags.py:49-60 | a 0 % discount only rounds to cents, 100 % gives zero, and a discount in [0, 100] on a non-negative value gives a price from 0 to the value plus half a cent |
| ProductForms.CleanAvailableWeights | products/forms.py:26-38 | without a 100 g weight the selection is unchanged; otherwise the result always holds it: none becomes [100 g], a selection without it gets it appended in order, one with it is unchanged |
| ProductForms.CleanAvailableWeightsIdempotent | products/forms.py:26-38 | cleaning twice is cleaning once, and the result holds exactly the selected weights plus the 100 g one |
| ProductForms.ProductWeights.Save | products/forms.py:18-24 | with commit the product's weights are the selection plus the 100 g weight; without commit nothing is written |
| ProductForms.CleanName | products/forms.py:71-75 | the stripped name is accepted exactly when it is non-empty and no other row has it ignoring case, else the "already exists" message |
| ProductForms.CleanGrams | products/forms.py:124-128 | accepted exactly when no other weight has the same grams |
| ProductForms.EqualsIgnoreCaseEquivalence | products/forms.py:73 | case-insensitive equality is symmetric and transitive |
| ProductForms.CreateKeepsNamesUnique | products/forms.py:71-75 | adding a row whose name passed the check keeps names unique ignoring case |
| ProductViews.BaseSlug | products/views.py:377 | the base slug is never empty: slugify's result, or 'product' when that is empty |
| ProductViews.CandidateInjective | products/views.py:383-385 | distinct counters give distinct candidates, so no slug is tried twice |
| ProductViews.CandidatesBelowCount | products/views.py:383-385 | the first n candidates are n different slugs |
| ProductViews.TakenBound | products/views.py:383-385 | when the first n candidates are all taken, at least n slugs are taken, so the loop ends |
| ProductViews.FirstFreeUnique | products/views.py:378-386 | there is only one first free candidate |
| ProductViews.GenerateUniqueSlug | products/views.py:376-386 | the slug is used by no product other than exclude_pk, and it is the base slug if free, else the first free "base-k" |
| ProductViews.FirstFreeSlug | products/views.py:378-386 | the loop returns the first candidate not in use |
| ProductViews.FreeSlugKeepsSlugsUnique | products/views.py:316-344 | storing a product whose slug no other product uses keeps slugs unique |
| ProductViews.Catalog.CreateProduct | products/views.py:310-319 | a posted slug another product uses is refused by the form and nothing is saved; a product without a slug gets the first free one; any other slug is kept; the table grows by exactly the saved product |
| ProductViews.Catalog.EditProduct | products/views.py:334-349 | as creation, with the product's own row not counting as taking a slug; a refused form changes nothing, otherwise only that row changes |
| ProductViews.Catalog.ToggleActive | products/views.py:390-394 | the product's active flag flips and nothing else changes |
| ProductViews.ActiveProducts | products/views.py:18 | exactly the active products, each at most as often as stored |
| ProductViews.CatalogOrder | products/views.py:16-38 | a permutation of the active products: cheapest first for 'price_asc', dearest first for 'price_desc', best rated first with unrated last for 'rating', newest first otherwise |
| ProductViews.WithoutPage | products/views.py:45-49 | the query string keeps every parameter except 'page', and none named 'page' |
| ProductViews.WithoutPageIdempotent | products/views.py:45-49 | without a 'page' entry nothing changes, so stripping twice is stripping once |
| ProductViews.FindRow | products/views.py:427-441 | the row with the id, or none when no row has it |
| ProductViews.RenameKeepsNamesUnique | products/views.py:428-436 | renaming to a name no other row has ignoring case keeps names unique |
| ProductViews.RemoveKeepsUnique | products/views.py:439-444 | deleting a row keeps ids and names unique |
| ProductViews.ReferenceTable.Create | products/views.py:413-423 | the form's name check decides; an accepted name is appended, with the multiplier for a bean type |
| ProductViews.ReferenceTable.Edit | products/views.py:425-437 | an unknown row is a 404; an empty name or a name another row has ignoring case is refused; a bad multiplier cancels the edit; otherwise the row is renamed |
| ProductViews.ReferenceTable.Delete | products/views.py:439-444 | an unknown row is a 404 and changes nothing; otherwise exactly that row goes, a deleted roast level is cleared from the products that had it (products/models.py:74), and a deleted bean type's cart lines go from every cart (orders/models.py:46); each cart keeps one line per key |
| ProductViews.ClearRoast | products/models.py:74 | after a roast level is deleted no product points at it, and nothing else about any product changes |
| ProductViews.FindWeight | products/views.py:584-614 | the weight with the id, or none |
| ProductViews.WeightTable.Create | products/views.py:570-580 | the form's grams check decides; an accepted weight is appended |
| ProductViews.WeightTable.Edit | products/views.py:582-610 | the 100 g weight is never edited; empty, unparsable or taken grams and a bad multiplier are refused in that order; otherwise the row gets the new grams and multiplier |
| ProductViews.WeightTable.Delete | products/views.py:612-620 | the 100 g weight is never deleted; any other is removed together with the cart lines that use it, in every cart (orders/models.py:45); each cart keeps one line per key |
| Forecasting.MakeParams | analytics/services.py:23-31 | `x or DEFAULT`: a missing or zero alpha, beta or gamma falls back to 0.3, 0.1 or 0.2, any other value is kept, so no parameter ends up 0 |
| Forecasting.Period | analytics/services.py:208 | a missing or zero season period falls back to 7; any other is kept |
| Forecasting.MovingAverage | analytics/services.py:138-146 | fewer points than the window: the data copied; otherwise window-1 leading gaps and then, at each later day, the mean of the window ending there, rounded to cents |
| Forecasting.WindowMeanBounds | analytics/services.py:142-145 | a window mean lies between any lower and upper bound of the data |
| Forecasting.WindowMeanOfConstant | analytics/services.py:142-145 | on constant data the window mean is that constant |
| Forecasting.MovingAverageForecast | analytics/services.py:165-169 | `horizon` copies of the last average rounded to cents |
| Forecasting.LastAverageMeaning | analytics/services.py:165-168 | the last average is the mean of the last full window when there is one, 0 without data, and otherwise lies within the bounds of the data |
| Forecasting.SingleExponentialSmoothing | analytics/services.py:184-191 | the result starts with the first value and each later entry is alpha*x + (1-alpha)*previous rounded to cents; empty data gives empty output |
| Forecasting.SesUnique | analytics/services.py:184-191 | the smoothing is determined by alpha and the data: two results satisfying the recurrence are equal |
| Forecasting.SesOfConstant | analytics/services.py:184-191 | a constant series in whole cents is its own smoothing, whatever alpha |
| Forecasting.SesFullWeight | analytics/services.py:189 | with alpha 1 a series in whole cents is reproduced exactly |
| Forecasting.InitialSeasons | analytics/services.py:230 | there is one initial seasonal term per day of the first season |
| Forecasting.PrevSeasonIndex | analytics/services.py:238-241 | the corrected index: the latest seasonal term of day t's weekday; it lies inside the seasons list built so far |
| Forecasting.PrevSeasonIndexAsWritten | analytics/services.py:238-241 | the index as written, `seasons[t]` before day m and `seasons[t - m]` from then on, lies inside the seasons list built so far; the recurrence below uses it |
| Forecasting.PrevSeasonIndexIsLatest | analytics/services.py:234-252 | the corrected index picks the seasonal term of the same weekday as day t, and the most recent one: no later term has that phase |
| Forecasting.AsWrittenSeasonIndexOutOfPhase | analytics/services.py:241 | from day 2m on, `seasons[t - m]` is the term of weekday t+1, never that of day t |
| Forecasting.AsWrittenSeasonIndexExample | analytics/services.py:241 | with a weekly period on day 14 the code reads the term of phase 1, while the latest term of phase 0 is at index 13 |
| Forecasting.HwInit | analytics/services.py:219-235 | the initial state has one level, one trend, one smoothed value and m seasonal terms |
| Forecasting.HwStep | analytics/services.py:237-253 | one day of the loop as written: it reads the seasonal term at `t - m` from day m on, and appends one level, one trend, one smoothed value and one seasonal term |
| Forecasting.HwTrace | analytics/services.py:237-253 | after k days of the loop as written the state holds k levels, k trends, k smoothed values and m+k-1 seasonal terms |
| Forecasting.HoltWinters | analytics/services.py:208-255 | fewer than two seasons of data fall back to simple smoothing with no components; otherwise the smoothed series and the components are those of the day-by-day recurrence as written |
| Forecasting.HwTracePrefix | analytics/services.py:237-253 | the state after j days is a prefix of the state after any later day: the loop only appends |
| Forecasting.HwStepFacts | analytics/services.py:244-253 | day t's level, trend and seasonal term follow the three smoothing equations with the previous-season term read at `t - m`, and its smoothed value is their sum rounded to cents |
| Forecasting.HoltWintersInitial | analytics/services.py:219-235 | the first level is the first season's mean, the first trend the difference of the two season means over m, the first seasons the deviations from that level |
| Forecasting.HoltWintersRecurrence | analytics/services.py:237-253 | in the final state every day from 1 on satisfies the level, trend and season equations, with the previous-season term read as written |
| Forecasting.HoltWintersOfConstant | analytics/services.py:211-253 | on constant data the levels and smoothed values stay that constant and every trend and seasonal term stays 0 |
| Forecasting.ForecastSeasonIndex | analytics/services.py:287 | the seasonal index of forecast step h lies inside the final seasons list |
| Forecasting.ForecastSeasonIndexPhase | analytics/services.py:287 | step h reads a term from the last season, with the weekday of day n-1+h |
| Forecasting.ForecastFromComponents | analytics/services.py:281-295 | `horizon` values, each last level + h*last trend + that weekday's seasonal term, floored at 0 and rounded to cents, so never negative |
| Forecasting.HoltWintersForecast | analytics/services.py:273-295 | without components, `horizon` copies of the last smoothed value (0 when empty); with them, the floored component forecast; the smoothed series is returned alongside |
| Forecasting.HoltWintersForecastOfConstant | analytics/services.py:276-293 | on constant non-negative data every forecast step, before rounding, is that constant |
| Forecasting.Pairs | analytics/services.py:312 | the pairs zip actual and predicted and drop missing predictions, so there are no more of them than of either input |
| Forecasting.NonZeroActual | analytics/services.py:332 | the MAPE pairs are pairs of the input with a non-zero actual value |
| Forecasting.Mae | analytics/services.py:312-315 | MAE is never negative and is 0 without pairs |
| Forecasting.Rmse | analytics/services.py:353-357 | RMSE is never negative and is 0 without pairs |
| Forecasting.Mape | analytics/services.py:332-335 | MAPE is never negative and is 0 without pairs with a non-zero actual |
| Forecasting.MaeOfExact | analytics/services.py:312-315 | a perfect prediction has MAE 0 |
| Forecasting.RmseOfExact | analytics/services.py:353-357 | a perfect prediction has RMSE 0 |
| Forecasting.MapeOfExact | analytics/services.py:332-335 | a perfect prediction has MAPE 0 |
| Forecasting.MetricsOfNoPrediction | analytics/services.py:312-357 | when every prediction is missing all three metrics are 0 |
| Forecasting.GetDailySales | analytics/services.py:46-83 | one entry per day from end-days_back+1 to end, in order, with that day's revenue and order count, or zeros for a day without sales |
| Forecasting.ForecastTrend | analytics/services.py:438-439 | up, down or stable exactly as the last forecast value is above, below or equal to the first |
| Forecasting.CountPositive | analytics/services.py:426 | the days with sales are at most all days; none when no value is positive, all when every one is |
| Forecasting.MakeSummary | analytics/services.py:426-440 | the summary counts all days, days with sales among them, and carries the forecast's trend |
| Forecasting.ErrorsOf | analytics/services.py:412-423 | the three error metrics of a method are never negative |
| Forecasting.GenerateForecast | analytics/services.py:376-459 | no days give the empty report; otherwise the dates and values of the chosen metric; the moving average has six gaps and then each day's 7-day mean in cents (the data itself under 7 days); under 14 days Holt-Winters is simple smoothing forecast flat at its last value, from 14 days on its smoothing is the recurrence's and each step h is the floored component forecast; `forecast_days` forecast dates follow the last day; the metrics of both methods and the summary |
| Inventory.ZScore | analytics/inventory_service.py:22-27 | service levels 90/95/97/99 give 1.28/1.645/1.96/2.33; any other level gives 1.645 |
| Inventory.ZScoreMonotone | analytics/inventory_service.py:22-27 | a higher listed service level has a larger, positive Z |
| Inventory.ZScorePositive | analytics/inventory_service.py:137 | every service level gets a Z of at least 1.28 |
| Inventory.StdDev | analytics/inventory_service.py:142-145 | the sample (n-1) standard deviation is never negative |
| Inventory.SafetyStock | analytics/inventory_service.py:124-148 | fewer than two observations give (0, 0); otherwise z*s*sqrt(lead time) rounded to one decimal and s rounded to cents, both non-negative |
| Inventory.SafetyStockOfConstant | analytics/inventory_service.py:139-148 | demand that never varies needs no safety stock |
| Inventory.ReorderPoint | analytics/inventory_service.py:164-165 | the reorder point is avg_daily*lead_time + safety_stock to one decimal, and non-negative for non-negative inputs |
| Inventory.ClampAtZero | analytics/inventory_service.py:191 | each forecast value is replaced by its maximum with 0 |
| Inventory.ForecastProductDemand | analytics/inventory_service.py:181-212 | `forecast_days` non-negative values; no data for an empty or all-zero history; Holt-Winters from two seasons of data on, with its smoothed series; the 7-day moving average below that, whose smoothed series is the data under a week and six gaps then the rounded 7-day means; the error metrics compare the data with the chosen method's smoothed series |
| Inventory.DemandForecastOfConstant | analytics/inventory_service.py:186-198 | two or more seasons of a constant positive demand are forecast by Holt-Winters as that constant on every day |
| Inventory.DemandTrendOf | analytics/inventory_service.py:268-272 | fewer than two points are stable; otherwise growing exactly when the last point exceeds the first by more than 5% |
| Inventory.DemandTrendDeadband | analytics/inventory_service.py:268-272 | for a non-negative first point: growing iff last > 1.05*first, declining iff last < 0.95*first, stable iff within that band |
| Inventory.Cv | analytics/inventory_service.py:275 | CV is 0 without positive average demand and never negative otherwise |
| Inventory.PatternMonotone | analytics/inventory_service.py:278-283 | a larger CV never gives a steadier pattern, and CV 0 is stable |
| Inventory.PatternOf | analytics/inventory_service.py:277-283 | stable below CV 0.5, variable below 1.0, highly variable otherwise; Inventory.PatternMonotone states its order |
| Inventory.ProductDailyDemand | analytics/inventory_service.py:55-82 | days and values have one entry per day of the period, in order, each the quantity sold that day or 0 |
| Inventory.AllProductsDemand | analytics/inventory_service.py:93-121 | one entry per product id among the sold rows, ids distinct, each carrying the name and total of its last row and its zero-filled daily series |
| Inventory.IndexOf | analytics/inventory_service.py:114 | the position of the product's entry, or the length when it has none |
| Inventory.MaxOf | analytics/inventory_service.py:246 | the maximum daily demand bounds every day and is one of them; 0 without days |
| Inventory.RecommendedOrderQty | analytics/inventory_service.py:264-265 | the smallest integer at least the forecast total plus the safety stock |
| Inventory.RecommendedOrderQtyCoversForecast | analytics/inventory_service.py:264-265 | for non-negative forecasts and safety stock the quantity is non-negative and covers the forecast total |
| Inventory.AnalysisFrom | analytics/inventory_service.py:242-316 | a product's analysis: its statistics, safety stock, reorder point, CV and pattern, the forecast rounded to one decimal and still non-negative, its trend, and an order quantity covering forecast plus safety stock |
| Inventory.AnalyzeProduct | analytics/inventory_service.py:242-316 | the analysis is the one built from the product's demand forecast |
| Inventory.CountTrendPartition | analytics/inventory_service.py:323-331 | every product is growing, declining or stable, so stable = total - growing - declining counts the stable ones |
| Inventory.MakeInventorySummary | analytics/inventory_service.py:321-335 | no products give the no-data summary; otherwise the totals and the three trend counts, which add up to the number of products |
| Inventory.SummaryNonNegative | analytics/inventory_service.py:322-334 | the total recommended units and the average safety stock are never negative |
| Inventory.AnalyzeAll | analytics/inventory_service.py:241-316 | one analysis per product, in the same order |
| Inventory.GenerateInventoryForecast | analytics/inventory_service.py:214-341 | one analysis per product: each product's analysis appears and each entry analyses some product; sorted by total sold descending, with the summary of that list; no products exactly when the summary says no data |
| Inventory.PermutedAnalyses | analytics/inventory_service.py:319 | a permutation of the per-product analyses still holds each product's analysis and nothing else |
| RecommendationModels.RecDefaultsValid | recommendations/models.py:24-80 | the field defaults meet every validator bound, and both the hybrid weights and the feature weights sum to 1 |
| RecommendationModels.RecSettingsTable.Save | recommendations/models.py:92-97 | a row with a key keeps it; a row without one takes the first existing row's key, or a new key in an empty table, so saving never adds a second row |
| RecommendationModels.RecSettingsTable.GetSettings | recommendations/models.py:99-103 | get-or-create on key 1: an existing row is returned untouched, otherwise a row with the defaults is created |
| RecommendationModels.SaveKeepsSingleton | recommendations/models.py:92-97 | saving into a one-row table under that row's key leaves exactly one row |
| RecommendationModels.InteractionWeight | recommendations/models.py:128-134 | view/cart/purchase/favorite/review weigh 1/3/5/4/4.5, any other type 1, so every weight lies in [1, 5] |
| RecommendationModels.PurchaseWeighsMost | recommendations/models.py:128-134 | no interaction type weighs more than a purchase or less than a view |
| RecommendationModels.WeightedScore | recommendations/models.py:163-167 | the weighted score lies between the count and five times the count |
| RecommendationModels.WeightedScoreStep | recommendations/models.py:163-167 | one more interaction adds exactly the type's weight to the score |
| Recommendations.EventWeight | recommendations/services.py:117-119 | the time-decayed weight is never negative, and positive for a positive count |
| Recommendations.AddScore | recommendations/services.py:122 | `interaction_scores[product] += weight`: an existing entry grows by the weight, a new product is appended with it, and no other entry changes |
| Recommendations.BuildProfile | recommendations/services.py:94-147 | the profile built from the user's interactions by the loop is the one the profile function specifies |
| Recommendations.GatherMeaning | recommendations/services.py:113-136 | the interacted products and the score keys are exactly the products of the interactions; every product's countries and bean types are among the preferred ones |
| Recommendations.GatherScoresNonNegative | recommendations/services.py:122 | every accumulated interaction score is non-negative |
| Recommendations.GatherPriceBounds | recommendations/services.py:135-136 | the weighted price sum stays between the lowest and highest price times the weight sum |
| Recommendations.AvgPriceBounds | recommendations/services.py:139-142 | the average preferred price is 0 without weight and otherwise lies between the lowest and highest price interacted with |
| Recommendations.UserProfile | recommendations/services.py:85-147 | a cached profile is returned unchanged; otherwise the profile is built and stored in the cache for that user |
| Recommendations.Jaccard | recommendations/services.py:189-192 | Jaccard similarity lies in [0, 1] |
| Recommendations.JaccardSymmetric | recommendations/services.py:189-192 | Jaccard similarity does not depend on the order of the two sets |
| Recommendations.JaccardOneIffEqual | recommendations/services.py:189-192 | for non-empty data Jaccard is 1 exactly when the sets are equal |
| Recommendations.JaccardZeroIffDisjoint | recommendations/services.py:189-192 | for non-empty data Jaccard is 0 exactly when the sets are disjoint |
| Recommendations.SetSimilarity | recommendations/services.py:188-209 | the country and bean similarity lies in [0, 1] and is the neutral 0.5 when either side has no data |
| Recommendations.RoastSimilarity | recommendations/services.py:197-200 | 1 exactly when the product's roast is preferred, 0.5 exactly when either side has no data, else 0 |
| Recommendations.PriceSimilarity | recommendations/services.py:212-218 | 0.5 without an average price, 1 when the maximum price is not positive, never above 1, and non-negative for prices within the catalog's range |
| Recommendations.MaxPrice | recommendations/services.py:213 | the catalog's maximum price bounds every product's price and is one of them |
| Recommendations.ContentSimilarity | recommendations/services.py:182-228 | the content score lies in [0, 1] and is 0 for a user without interactions |
| Recommendations.ContentSimilarityUnclamped | recommendations/services.py:220-228 | with valid feature weights summing to at most 1, the weighted combination already lies in [0, 1], so the clamp changes nothing |
| Recommendations.StoredSimilarity | recommendations/services.py:252-257 | a found similarity is a stored row for that pair; none means no row for it |
| Recommendations.CollaborativeScore | recommendations/services.py:243-270 | the loop computes the interaction-weighted mean of the stored similarities to the product, 0 without history, for an interacted product, or without any matching row |
| Recommendations.CollaborativeInUnit | recommendations/services.py:260-270 | with stored similarities in [0, 1] and non-negative interaction scores the collaborative score lies in [0, 1] |
| Recommendations.Collaborative | recommendations/services.py:243-270 | the interaction-weighted mean of the stored similarities to the product, 0 without history, for an interacted product or without a matching row; Recommendations.CollaborativeInUnit states its range |
| Recommendations.PopularityInUnit | recommendations/services.py:284-297 | with non-negative ratings, 0.6 of the relative purchases plus 0.4 of the relative review score lies in [0, 1] |
| Recommendations.Popularity | recommendations/services.py:284-297 | 0.6 of the purchases relative to the catalog maximum plus 0.4 of the review score relative to its maximum, a zero maximum counting as 1; Recommendations.PopularityInUnit states its range |
| Recommendations.Scored | recommendations/services.py:326-354 | cold start: algorithm popular and score = popularity; with history: algorithm hybrid and score = α·content + β·collaborative + γ·popularity |
| Recommendations.Candidates | recommendations/services.py:320-354 | every candidate is a catalog product outside the exclusion set, scored as above, and every such product is a candidate |
| Recommendations.ScoreCandidates | recommendations/services.py:320-354 | the loop builds exactly the candidate list |
| Recommendations.GetRecommendations | recommendations/services.py:314-365 | the first `limit` candidates sorted by score descending, excluding the caller's set and the interacted products; a non-empty caller set is extended with the interacted ids in place, an empty one is not |
| Recommendations.RecommendationsMeaning | recommendations/services.py:317-360 | at most `limit` items, sorted by score descending, none excluded or already interacted with, each scored as above; cold start gives only popular items |
| Recommendations.RecordInteraction | recommendations/services.py:412-424 | the table after is the table before with one more count and the current time on the (user, product, type) row, created with count 1 when missing; no other row changes; the user's cached profile is dropped |
| Recommendations.Bump | recommendations/services.py:412-421 | one recording: the key's row exists afterwards, its count is one higher (1 when new) and it carries the current time; every other row is unchanged |
| Recommendations.BumpAllCounts | orders/views.py:320-336 | after recording one interaction per product of a list, each product's count has grown by the number of times it occurs in the list |
| Recommendations.BumpAllOthers | orders/views.py:320-336 | recording a user's interactions of one type leaves other users' and other types' rows as they were |
| Recommendations.BatchJaccard | recommendations/services.py:462-474 | the batch Jaccard lies in [0, 1] and is 0 when either set is empty |
| Recommendations.PairSimilarityMeaning | recommendations/services.py:460-485 | the pair score is symmetric, lies in [0, 1] whenever the price gap is within the normalising range, and is 1 for a product with itself that has at least one country and one bean type |
| Recommendations.PairSimilarity | recommendations/services.py:460-485 | 0.25 times the country Jaccard, 0.30 times the same-roast flag, 0.25 times the bean Jaccard and 0.20 times 1 minus the relative price gap; Recommendations.PairSimilarityMeaning states its properties |
| Recommendations.PriceRange | recommendations/services.py:442-443 | the price range bounds the price gap of every pair of products |
| Recommendations.ComputeProductSimilarities | recommendations/services.py:427-504 | the table is replaced by the rows of every pair in order, both directions, and the count is the number of rows written |
| Recommendations.RowsBeforeCount | recommendations/services.py:448-498 | after the first i products, i(2n-i-1) rows have been written |
| Recommendations.SimilarityRowCount | recommendations/services.py:448-504 | n products give exactly n(n-1) rows |
| Recommendations.SimilarityBatchShape | recommendations/services.py:448-504 | for distinct products the n(n-1) rows come in mirrored pairs with equal scores and no product paired with itself |
| AccountModels.LocalPart | accounts/models.py:63 | `email.split('@')[0]`: the longest prefix without '@', ending just before the first '@' when there is one |
| AccountModels.DisplayNameSources | accounts/models.py:61-63 | the display name is a non-empty username, else a non-empty first name, else the e-mail's local part, which is non-empty when the address does not start with '@' |
| AccountModels.DisplayName | accounts/models.py:61-63 | the username, else the first name, else the e-mail's local part; AccountModels.DisplayNameSources states it |
| AccountModels.RolesNest | accounts/models.py:65-71 | admins are managers; a manager who is not a superuser is not an admin; customers are not managers; a superuser customer is an admin but not a manager |
| AccountModels.IsManager | accounts/models.py:65-67 | the role is manager or admin; AccountModels.RolesNest relates the roles |
| AccountModels.IsAdmin | accounts/models.py:69-71 | the role is admin or the user is a superuser; AccountModels.RolesNest relates the roles |
| AccountModels.DaysUntilBirthDateChange | accounts/models.py:73-83 | 0 exactly when the birth date may be changed; otherwise a count from 1 to 365 days |
| AccountModels.CanChangeBirthDate | accounts/models.py:73-77 | no birth date, no recorded change, or 365 whole days since the change; AccountModels.CooldownCountIsExact and AccountModels.ChangeStartsCooldown state its timing |
| AccountModels.CooldownCountIsExact | accounts/models.py:73-83 | after the reported number of days the change becomes allowed, and one day earlier it is still refused |
| AccountModels.ChangeStartsCooldown | accounts/models.py:74-77 | once a birth date is set and its change time recorded, a change is allowed exactly when 365 whole days have passed |
| AccountModels.SaveToken | accounts/models.py:98-131 | save keeps a given token, code and expiry and fills in a missing one: a fresh token, a fresh six-digit reset code, and an expiry 24 hours (verification) or 1 hour (reset) from now |
| AccountModels.Lifetime | accounts/models.py:102-130 | 24 hours for a verification token, 1 hour for a reset code; AccountModels.FreshTokenLifetime states the validity it gives |
| AccountModels.FreshTokenLifetime | accounts/models.py:98-135 | a token saved without an expiry and never used is valid exactly until its lifetime has passed |
| AccountModels.SaveTokenIdempotent | accounts/models.py:98-131 | saving an already saved token again changes nothing, whatever fresh values are offered |
| AccountForms.UsernameError | accounts/forms.py:69-79 | a stripped username is accepted exactly when it has at least 3 characters, only letters, digits and underscores, and no other user has it ignoring case; otherwise the first failing check's message |
| AccountForms.CleanUsername | accounts/forms.py:176-186 | an absent or empty username is returned as is; any other is accepted exactly when its stripped form passes the checks, and the stripped form is returned |
| AccountForms.CleanUsernameIdempotent | accounts/forms.py:69-79 | a cleaned username passes the same check again unchanged |
| AccountForms.SetUsernameKeepsUnique | accounts/forms.py:176-186 | saving a username the profile check accepted for its own user, or clearing it, keeps usernames unique ignoring case |
| AccountForms.PhoneMatchesStripped | accounts/forms.py:11 | on a stripped value the pattern's final-newline case never arises, and a match has 7 to 21 characters |
| AccountForms.CleanProfilePhone | accounts/forms.py:188-192 | the stripped phone is accepted when empty or matching the pattern, else the pattern's message |
| AccountForms.ProfilePhoneShape | accounts/forms.py:188-192 | an accepted profile phone is empty or 7 to 21 characters of digits, whitespace, dashes and parentheses after an optional '+' |
| AccountForms.CleanSignupEmail | accounts/forms.py:81-85 | sign-up accepts an address exactly when no user has it |
| AccountForms.CleanForgotEmail | accounts/forms.py:119-123 | forgot-password accepts an address exactly when some user has it |
| AccountForms.SignupAndForgotComplementary | accounts/forms.py:119-123 | every address is accepted by exactly one of the two forms |
| AccountForms.CleanNewEmail | accounts/forms.py:266-270 | a new address is accepted exactly when no other user has it |
| AccountForms.ChangeEmailKeepsUnique | accounts/forms.py:266-270 | changing a user's address to an accepted one keeps addresses unique |
| AccountForms.CheckPasswordsMatch | accounts/forms.py:93-101 | the pair is refused with "Passwords do not match" exactly when both are present and differ |
| AccountForms.CheckPassword | accounts/forms.py:219-223 | the raw password is accepted exactly when it is the user's, else the form's message |
| AccountViews.FindToken | accounts/views.py:80 | the token row with that string, or none when no row of that kind has it |
| AccountViews.FirstUnusedWithCode | accounts/views.py:158-160 | the first unused reset token of the user with that code, or none when there is no such token |
| AccountViews.MarkAllUsed | accounts/views.py:99 | every token of that user and kind becomes used and no other token changes |
| AccountViews.IssueLeavesOneLiveToken | accounts/views.py:99-100 | after invalidating and creating, the new token is the user's only unused one of its kind; it stays valid exactly for its lifetime, and other users' tokens are untouched |
| AccountViews.Accounts.constructor | accounts/models.py:28-59 | an empty user table with no tokens and no session satisfies the account invariants |
| AccountViews.Accounts.Login | accounts/views.py:21-42 | a logged-in visitor is sent away; a rejected form changes nothing; a user with an unverified address is refused; a verified user is logged in, with the session ending at browser close unless "remember me" was ticked |
| AccountViews.Accounts.UpdateUsername | accounts/views.py:186-202 | an empty username clears it; a taken, short or ill-formed one is refused with the check's message and nothing changes; otherwise the stripped name is stored; usernames stay unique |
| AccountViews.Accounts.SetUsername | accounts/views.py:196-201 | storing a username no other user has (or clearing it) keeps every account invariant |
| AccountViews.Accounts.UpdateBirthDate | accounts/views.py:226-248 | no date: nothing happens; during the cooldown: refused with the days left; malformed, future or more than 120 years back: refused; otherwise the date and the change time are stored, and no further change is possible for 365 days |
| AccountViews.Accounts.VerifyEmail | accounts/views.py:79-91 | an unknown token is a 404; a valid token marks its user's address verified and is used up; an invalid one changes nothing |
| AccountViews.Accounts.MarkVerified | accounts/views.py:83-84 | verifying one user keeps every account invariant |
| AccountViews.Accounts.ResendVerification | accounts/views.py:94-117 | for an existing unverified address the user's old verification tokens are used up and a fresh one is issued; otherwise the error message and nothing changes |
| AccountViews.Accounts.ForgotPassword | accounts/views.py:120-142 | an unknown address is refused with the form's message; a known one gets its old reset tokens used up and a fresh code issued |
| AccountViews.Accounts.IssueToken | accounts/views.py:99-100 | issuing a token keeps every account invariant |
| AccountViews.Accounts.ResetPassword | accounts/views.py:145-175 | succeeds exactly when the user exists, the form is filled with matching passwords and the user's first unused token with that code is valid; then the password is set and that token used up; otherwise nothing changes |
| AccountViews.Accounts.ConsumeResetToken | accounts/views.py:163-166 | setting a password and using up a token keeps every account invariant |
| AccountViews.KeepsOwnersAndVerified | accounts/views.py:83-84 | changes that keep ids and addresses and never unverify a user keep token owners existing, the session's user verified and ids and addresses unique |
| OrderForms.CleanFullName | orders/forms.py:38-42 | the stripped name is accepted exactly when it has at least 2 characters; a short non-empty one gets "Please enter your full name" |
| OrderForms.CleanAddress | orders/forms.py:50-54 | the stripped address is accepted exactly when it has at least 5 characters; a short non-empty one gets "Please enter a valid delivery address" |
| OrderForms.CleanRequiredPhone | orders/forms.py:44-48 | a required phone: empty is refused as required, one not matching the pattern gets the form's message, otherwise the stripped phone is returned |
| OrderForms.CleanCheckoutPhone | orders/forms.py:44-48 | the checkout phone is a required phone with the form's message; OrderForms.PhoneFormsAgree and OrderForms.CheckoutPhoneShape state what it accepts |
| OrderForms.CleanContactPhone | orders/forms.py:81-85 | the contact form's phone is cleaned the same way with its own message; OrderForms.PhoneFormsAgree states that both forms accept the same phones |
| OrderForms.PhoneFormsAgree | orders/forms.py:81-85 | the checkout and contact forms accept the same phones, namely the non-empty ones the profile form accepts, cleaned the same way |
| OrderForms.CheckoutPhoneShape | orders/forms.py:6 | an accepted checkout phone has 7 to 21 characters: digits, whitespace, dashes and parentheses after an optional '+' |
| OrderForms.CheckoutFieldsIdempotent | orders/forms.py:38-54 | cleaned name, address and phone pass their validators again unchanged |
| ShopViews.PopularProducts | coffeeshop/views.py:64-88 | with sales, the active products among the top sellers in sales order; without, exactly min(20, number of active) active products newest first, and every active product left out is no newer than every one shown |
| ShopViews.NewestCutLength | coffeeshop/views.py:84-88 | the newest-first cut holds exactly min(20, number of active) products |
| ShopViews.NewestCutOrder | coffeeshop/views.py:84-88 | an active product left out of the newest-first cut is no newer than any product in it |
| ShopViews.ActiveById | coffeeshop/views.py:78-81 | the active product with that id, or none when there is no such product |
| ShopViews.RankedActive | coffeeshop/views.py:81-82 | at most one product per top id, each active, in the catalog and among the top ids |
| ShopViews.RankedActiveKeepsOrder | coffeeshop/views.py:82 | the popular products keep the order of the sales ranking |
| ShopViews.RankedActiveComplete | coffeeshop/views.py:78-82 | every active product among the top ids appears |
| ShopViews.CleanContactName | coffeeshop/views.py:51-55 | the stripped name is accepted exactly when it has at least 2 characters, else the name message |
| ShopViews.CleanContactMessage | coffeeshop/views.py:57-61 | the stripped message is accepted exactly when it has at least 10 characters, else the message-length message |
| ShopViews.CleanContactForm | coffeeshop/views.py:16-61 | the form is valid exactly when name, e-mail and message pass; the stored message holds the stripped fields and is unread |
| ShopViews.Inbox.Submit | coffeeshop/views.py:111-131 | a valid form appends one unread message; an invalid one changes nothing and reports the errors |
| ShopViews.Inbox.Open | coffeeshop/views.py:149-165 | non-managers are refused; a missing message is a 404; opening marks the message read, writing only when it was unread |
| ShopViews.Inbox.Delete | coffeeshop/views.py:168-180 | non-managers are refused; a missing message is a 404; otherwise exactly that message is removed |
| ShopViews.OpenTwice | coffeeshop/views.py:159-161 | opening a message twice gives the same outcome and writes at most once |
| Reviews.FindReview | reviews/views.py:40 | the review with that id, or none when there is no such review |
| Reviews.WithoutKeepsInvariants | reviews/views.py:64 | deleting a review keeps ids unique, one review per user and product, and ratings in range, and the review is gone |
| Reviews.ReviewTable.AddReview | reviews/views.py:14-33 | a missing product is a 404; a second review of the product by the user is refused; an invalid form is refused; otherwise one approved review by the user is appended; nothing changes on refusal |
| Reviews.ReviewTable.UpdateReview | reviews/views.py:38-49 | another user's or a missing review is a 404; an invalid form changes nothing; otherwise only the rating and comment of that review change |
| Reviews.ReviewTable.DeleteReview | reviews/views.py:54-67 | a missing review is a 404; only the owner or a manager may delete; deletion removes exactly that review |
| Reviews.ReviewTable.ToggleApproval | reviews/views.py:100-112 | non-managers are refused; a missing review is a 404; otherwise only that review's approval flips |
| Reviews.FindReviewFinds | reviews/views.py:104 | with unique ids the lookup finds the one review with that id |
| Reviews.ToggleTwice | reviews/views.py:105-106 | toggling a review's approval twice restores the table |
| Text.Strip | orders/forms.py:39 | `str.strip()`: a contiguous piece of the input with no whitespace at either end |
| Text.StripIdempotent | orders/forms.py:39 | stripping twice is stripping once |
| Text.CleanMinLength | orders/forms.py:38-42 | a required text field with a minimum length: empty is refused as required, too short gets the field's message, otherwise the stripped text |
| Text.CleanMinLengthIdempotent | coffeeshop/views.py:51-55 | a cleaned text field passes its validator again unchanged |
| Text.LowerOfUpper | discounts/views.py:197 | `code.upper()` keeps a code's case-insensitive identity: lower-casing the upper-cased code gives the lower-cased code |
| Text.NatToStringRoundTrip | accounts/views.py:230-231 | the decimal digits printed for a count read back as that count |
| Calendar.ReplaceYear | discounts/services.py:226-231 | `date.replace(year=y)` succeeds exactly when the year is in range and the date is not February 29 of a non-leap year, and then only the year changes |
| Calendar.YearsApart | discounts/services.py:239-247 | dates two or more calendar years apart are more than 365 days apart |
| Sorting.SortDescBy | analytics/inventory_service.py:319 | `sort(key=..., reverse=True)`: the result is sorted by the key descending and is a permutation of the input |
| Sorting.SameElements | analytics/inventory_service.py:319 | a permutation of a list holds each of its elements |
| Sorting.TakePrefix | recommendations/services.py:360 | `items[:limit]`: the first `limit` items, or all but the last -limit for a negative limit |
| Arith.DivHalfUp | discounts/services.py:108 | `quantize(..., ROUND_HALF_UP)` on an exact ratio: the nearest integer, ties away from zero, non-negative for a non-negative numerator |
| Arith.RoundHalfUpMonotone | discounts/services.py:193 | half-up rounding never reverses the order of two values |
| Arith.Round2 | analytics/services.py:145 | `round(x, 2)`: within half a cent of x and non-negative for non-negative x |
| Arith.Round1 | analytics/inventory_service.py:148 | `round(x, 1)`: within 0.05 of x and non-negative for non-negative x |
| Arith.Round2Idempotent | analytics/services.py:190 | rounding an already rounded value to cents changes nothing |
| Arith.ThousandthsOfFraction | discounts/services.py:118-124 | a fraction in [0, 1] rounded half-up to thousandths stays in [0, 1000] thousandths |

## Left out

- Floating point: the forecasting, inventory and recommendation code runs on binary floats, and so do the three steps listed below. The model uses exact reals, so rounding errors, NaN and infinities are not captured. `round` is half-to-even on the exact value.
- RecencyScore: rounds the exact `1 - days/max_days`. The source rounds the text of the binary float (discounts/services.py:107-108), which can fall just below a half: with recency_max_days 80 and 49 days since the last order the float is 0.38749999999999996, so the source gives 0.387 where the model gives 0.388.
- DiscountFromRfm: the curve `base + (max - base) * rfm ** alpha` is a float in the source and is rounded half-up from its text (discounts/services.py:185-193). The model rounds the exact real, so a value within a float error of a half cent can round the other way.
- AverageRating: `round(Avg('rating'), 1)` rounds a binary float (products/models.py:114). The model rounds the exact mean half-to-even, so 20 approved ratings summing to 87 show 4.4 in the model and 4.3 in the source.
- Decimal context: the discount engine and the filters are exact integers or rationals. The 28-digit Decimal context and the `max_digits` limits of the model fields are not modelled.
- Sorting: Python's `sort` is stable and so is `Sorting.SortDescBy`. Ties in the database `order_by` clauses are taken as input order.
- Database and ORM: querysets are sequences and maps passed in or held in classes. Transactions, concurrent requests and `select_for_update` are not modelled. A fresh primary key or token is a parameter that the caller guarantees unused.
- Requests and responses: rendering, redirects, flash messages, e-mail sending, logging and JSON encoding are left out. A view returns the outcome and message that decide what the user sees.
- Caching: the recommendation profile cache is a map. Its one-hour timeout (CACHE_TIMEOUT) is not modelled.
- External functions are parameters: `slugify`, square root, `exp`, `**`, the unit price of a cart line, and the clock.
- Case mapping: `Text.Upper`, `Text.Lower` and `Text.EqualsIgnoreCase` map only the ASCII letters. Python's `str.upper()` (discounts/views.py:197) maps every Unicode letter ("été" becomes "ÉTÉ"), and the `iexact` lookups (discounts/services.py:259, orders/views.py:347, products/forms.py:73, accounts/forms.py:77 and others) follow the database's case folding.
- Catalog filters and pages: `catalog_view` also narrows the products with ProductFilter (price range, country, roast, bean type, weight) and shows 12 per page (products/views.py:26-27, 41-43). ProductViews.CatalogOrder models only the sort.
- Password hashing and Django's `validate_password` are not modelled: a password is compared as stored text.
- Field syntax checks that Django runs before `clean_<field>` are left out: `EmailField` syntax, `max_length` limits and date parsing. For example, a 21-character phone with a leading '+' passes the pattern, but the model field's length limit of 20 is not checked.
- Whitespace: `\s` in the patterns and `str.strip` are modelled on the ASCII whitespace Python recognises (space, `\t`, `\n`, `\v`, `\f`, `\r` and `\x1c`-`\x1f`). Python also treats non-ASCII spaces such as `\x85`, `\xa0` and `\u3000` as whitespace.
- Clock reads: `update_birth_date` reads `timezone.now()` twice. The model takes one date and one timestamp, so it assumes both reads fall on the same day.
- Views with no rule beyond a query are not modelled: `signup_view` (beyond its form checks), `logout_view`, `cart_view`, `orders_list`, `order_detail`, `manager_orders`, `product_detail`, `toggle_favorite`, `favorites_view`, `search_products`, `manager_products`, `manager_reviews`, `manager_contact_messages`, `my_discount_view`, `calculate_discount_ajax`, `manager_customer_discounts`, `manager_recommendation_settings` (discounts/views.py:269-313: its parsing of the posted fields and its `full_clean` gate are not modelled; only the singleton save, RecommendationModels.RecSettingsTable.Save, is), `manager_product_delete` (products/views.py:361-373, a plain delete whose cascades to cart lines, reviews and interactions are not modelled), and the profile and password sections of `account_settings`.
- `RecommendationEngine.get_similar_products` and `_log_recommendations` are not modelled: one is a query over the similarity table, the other only writes a log.
- `ForecastingService.get_monthly_sales`, `get_product_sales_ranking` and `InventoryForecastService.generate_single_product_forecast` are not modelled. They are aggregation queries, or repeat the per-product analysis for one product.
- Deleting a country, a bean type or a weight also removes it from every product's `countries`, `available_bean_types` or `available_weights` (their many-to-many rows go). `ProductViews.Product` carries none of these sets, so the model does not capture that effect. The cascades to cart lines and the clearing of a deleted roast level are modelled.
- Home page: the sales ranking behind `top_ids` is an input.
- reviews/forms.py is not part of this model. The review form is reduced to its rating bound of 1 to 5 and a free comment.
- OrderForms.CleanContactPhone: the contact form's phone looks optional, but `Order.phone` is a required field, so an empty phone is refused. The model follows the code.
- Forecasting.GenerateForecast: requires at least one forecast day when there are sales days. With `forecast_days` 0 the source raises an IndexError at `hw_forecast[-1]`.
- Forecasting.MovingAverage: requires a window of at least 1. With a window of 0 the source divides by zero.
- Forecasting.HoltWinters: the season period is a `nat`; 0 stands for the default of 7 through Forecasting.Period, as `season_period or self.SEASON_PERIOD` does. A negative period, which no caller passes, is not representable.
- OrderModels.AssignOrderNumber: requires a free four-digit number when one must be drawn, because without one the source's loop never ends; OrderModels.AssignOrderNumberOrFail covers the full table (see Findings).
- OrderViews.PlaceOrder: requires a free order number for the same reason as OrderModels.AssignOrderNumber.
- OrderViews.Cart.MergeSessionCart: requires the session cart to be a different cart from the user's, as in the source, which only merges an anonymous session cart.

## Findings

The operations of the model follow the code as written, including checkout's promo usage, which as written never records anything. Each corrected member below is defined and proved beside them, and states what the code evidently intends; the intended promo recording is OrderViews.RecordDiscountIntended, which no other operation calls.

| source | as written | input that shows it | evidently intended | confidence | as-written member | corrected member |
|---|---|---|---|---|---|---|
| discounts/services.py:239-247 | the birthday window is checked around this year's and last year's birthday, never next year's | born 2000-01-02, today 2025-12-30, window 7 days: the birthday is 3 days away, but no bonus is granted | every occurrence of the birthday within the window counts, including next year's | high, not executed | DiscountService.BirthdayNextYearMissed | DiscountService.BirthdayBonusCoversEveryOccurrence |
| discounts/services.py:435-446 | each percent row's amount is its percent over the capped total percent, times the non-promo discount | RFM 20% and birthday 10%, capped at 25%, on 100.00: the rows record 20.00 and 10.00, but the discount was 25.00 | the rows split the non-promo discount in proportion and add up to it | high, not executed | DiscountService.HistoryOverstatesCappedDiscount | DiscountService.HistoryRowsAddUp |
| analytics/services.py:238-241 | from t >= m the previous-season term is `seasons[t - m]`, and the model's recurrence reads it so | m = 7, t = 14: reads `seasons[7]`, whose phase is 1; the latest estimate of phase 0 is `seasons[13]` | the latest estimate of the same phase, made one season earlier | high, not executed | Forecasting.AsWrittenSeasonIndexOutOfPhase | Forecasting.PrevSeasonIndexIsLatest |
| discounts/views.py:204 | the duplicate check compares the upper-cased code exactly, while the lookup at discounts/services.py:259 ignores case | "summer" stored, then a manager creates "summer": "SUMMER" is stored too, and validating either code finds two rows | refuse a code that exists ignoring case | high, not executed | DiscountViews.CaseTwinBreaksLookup | DiscountViews.CreateKeepsCodesDistinct |
| orders/templatetags/decimal_tags.py:13-18 | the handler catches ValueError and TypeError, but `Decimal` of a text that is not a number raises InvalidOperation | `add_decimal("abc", 1)` raises instead of returning "abc" | return the input value whenever it cannot be converted | medium, not executed | DecimalTags.InvalidTextRaises | DecimalTags.ApplyFilter |
| orders/templatetags/decimal_tags.py:43 | a falsy multiplier is replaced by 1, and a numeric 0 is falsy | `multiply_decimal(5, 0)` gives 5 | a missing multiplier counts as 1, a zero multiplier gives 0 | medium, not executed | DecimalTags.MultiplyByZeroAsWritten | DecimalTags.MultiplyByZero |
| orders/views.py:348-358 | the usage row is created with a `discount_amount` keyword, but the field of PromoCodeUsage is `discount_applied` (discounts/models.py:267); the TypeError is swallowed by `except Exception` before `times_used += 1` runs | a code ONCE with one global use and one use per customer, applied at checkout: no usage row is stored, times_used stays 0, and the same customer can apply ONCE again | each checkout with a valid code stores a usage row and raises times_used by one, so the caps are reached | high, not executed | OrderViews.SingleUseCodeStaysValid | OrderViews.IntendedCheckoutUsesUpCode |
| orders/models.py:130-134 | the number is redrawn until it is free, with no bound on the draws | 9000 orders numbered 1000 to 9999 exist: every draw is taken and saving a new order never ends | fail when every four-digit number is taken | medium, not executed | OrderModels.FullTableHasNoFreeNumber | OrderModels.AssignOrderNumberOrFail |

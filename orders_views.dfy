// The cart and order views (orders/views.py): adding, updating and removing cart lines, merging
// an anonymous session cart into the user's cart, applying a promo code, placing an order,
// cancelling it and a manager's status update. Money is in cents.
module OrderViews {
  import opened Wrappers
  import opened Text
  import opened Calendar
  import opened RealMath
  import opened DiscountModels
  import opened DiscountService
  import opened OrderModels
  import RecommendationModels
  import Recommendations

  // ---------------------------------------------------------------- cart lines

  /** The line holding `key`, if any (cart.items.filter(product=..., weight=..., bean_type=...).first()). */
  function Find(items: seq<CartItem>, key: ItemKey): (r: Option<nat>)
    ensures r.Some? ==> r.value < |items| && items[r.value].key == key
    ensures r.Some? ==> forall i :: 0 <= i < r.value ==> items[i].key != key
    ensures r.None? ==> forall i :: 0 <= i < |items| ==> items[i].key != key
  {
    if items == [] then None
    else if items[0].key == key then Some(0)
    else
      match Find(items[1..], key)
      case None => None
      case Some(j) => Some(j + 1)
  }

  /** Whether adding `quantity` under `key` keeps the quantity non-negative (the database's CHECK on quantity). */
  predicate CanAdd(items: seq<CartItem>, key: ItemKey, quantity: int)
  {
    match Find(items, key)
    case None => quantity >= 0
    case Some(i) => items[i].quantity + quantity >= 0
  }

  /** get_or_create with the quantity as default, then `quantity += n` when the line existed. */
  function AddLine(items: seq<CartItem>, key: ItemKey, quantity: int): (r: seq<CartItem>)
    requires CanAdd(items, key, quantity)
  {
    match Find(items, key)
    case None => items + [CartItem(key, quantity)]
    case Some(i) => items[i := CartItem(key, items[i].quantity + quantity)]
  }

  /** Setting the quantity of an existing line. */
  function SetLine(items: seq<CartItem>, i: nat, quantity: nat): seq<CartItem>
    requires i < |items|
  {
    items[i := items[i].(quantity := quantity)]
  }

  /** Deleting a line. */
  function RemoveLine(items: seq<CartItem>, i: nat): seq<CartItem>
    requires i < |items|
  {
    items[..i] + items[i + 1..]
  }

  /** Replacing line i changes each total by the difference between the new and the old line. */
  lemma ReplaceLine(items: seq<CartItem>, i: nat, x: CartItem, price: ItemKey -> int)
    requires i < |items|
    ensures TotalItems(items[i := x]) == TotalItems(items) - items[i].quantity + x.quantity
    ensures Subtotal(items[i := x], price) == Subtotal(items, price) - TotalPrice(items[i], price) + TotalPrice(x, price)
    ensures forall k ::
      (QuantityOf(items[i := x], k) == QuantityOf(items, k) - QuantityOf([items[i]], k) + QuantityOf([x], k))
  {
    var pre, post := items[..i], items[i + 1..];
    assert items == pre + [items[i]] + post;
    assert items[i := x] == pre + [x] + post;
    TotalsAppend(pre, [items[i]], price);
    TotalsAppend(pre + [items[i]], post, price);
    TotalsAppend(pre, [x], price);
    TotalsAppend(pre + [x], post, price);
  }

  /** Removing line i takes its quantity and amount off the totals. */
  lemma RemoveLineTotals(items: seq<CartItem>, i: nat, price: ItemKey -> int)
    requires i < |items|
    ensures TotalItems(RemoveLine(items, i)) == TotalItems(items) - items[i].quantity
    ensures Subtotal(RemoveLine(items, i), price) == Subtotal(items, price) - TotalPrice(items[i], price)
    ensures forall k :: QuantityOf(RemoveLine(items, i), k) == QuantityOf(items, k) - QuantityOf([items[i]], k)
  {
    var pre, post := items[..i], items[i + 1..];
    assert items == pre + [items[i]] + post;
    TotalsAppend(pre, [items[i]], price);
    TotalsAppend(pre + [items[i]], post, price);
    TotalsAppend(pre, post, price);
  }

  /**
   * Adding to the cart raises the key's quantity by exactly the amount added and leaves every
   * other key alone, keeps one line per key, and moves the item count and the subtotal by the
   * added quantity and its price. The addition is allowed exactly when the key's new quantity
   * is not negative.
   */
  lemma {:induction false} AddLineMeaning(items: seq<CartItem>, key: ItemKey, quantity: int, price: ItemKey -> int)
    requires DistinctKeys(items)
    ensures CanAdd(items, key, quantity) <==> QuantityOf(items, key) + quantity >= 0
    ensures CanAdd(items, key, quantity) ==>
      var r := AddLine(items, key, quantity);
      DistinctKeys(r) &&
      QuantityOf(r, key) == QuantityOf(items, key) + quantity &&
      (forall k :: k != key ==> QuantityOf(r, k) == QuantityOf(items, k)) &&
      TotalItems(r) == TotalItems(items) + quantity &&
      Subtotal(r, price) == Subtotal(items, price) + price(key) * quantity
  {
    QuantityOfLine(items, key);
    if CanAdd(items, key, quantity) {
      var r := AddLine(items, key, quantity);
      match Find(items, key)
      case None =>
        var x := CartItem(key, quantity);
        TotalsAppend(items, [x], price);
        SingleLine(x, price);
      case Some(i) =>
        var x := CartItem(key, items[i].quantity + quantity);
        ReplaceLine(items, i, x, price);
        SingleLine(x, price);
        SingleLine(items[i], price);
        assert TotalPrice(x, price) - TotalPrice(items[i], price) == price(key) * quantity by {
          Distribute(price(key), items[i].quantity, quantity);
        }
    }
  }

  lemma Distribute(p: int, a: int, b: int)
    ensures p * (a + b) - p * a == p * b
  {
  }

  /** Setting a line's quantity gives the key exactly that quantity and leaves the other keys alone. */
  lemma SetLineMeaning(items: seq<CartItem>, i: nat, quantity: nat, price: ItemKey -> int)
    requires DistinctKeys(items) && i < |items|
    ensures var r := SetLine(items, i, quantity);
      DistinctKeys(r) &&
      QuantityOf(r, items[i].key) == quantity &&
      (forall k :: k != items[i].key ==> QuantityOf(r, k) == QuantityOf(items, k)) &&
      TotalItems(r) == TotalItems(items) - items[i].quantity + quantity
  {
    var r := SetLine(items, i, quantity);
    ReplaceLine(items, i, items[i].(quantity := quantity), price);
    SingleLine(items[i], price);
    SingleLine(items[i].(quantity := quantity), price);
    QuantityOfLine(items, items[i].key);
  }

  /** Removing a line empties its key and leaves the other keys alone. */
  lemma RemoveLineMeaning(items: seq<CartItem>, i: nat, price: ItemKey -> int)
    requires DistinctKeys(items) && i < |items|
    ensures var r := RemoveLine(items, i);
      DistinctKeys(r) && |r| == |items| - 1 &&
      QuantityOf(r, items[i].key) == 0 &&
      (forall k :: k != items[i].key ==> QuantityOf(r, k) == QuantityOf(items, k)) &&
      TotalItems(r) == TotalItems(items) - items[i].quantity
  {
    var r := RemoveLine(items, i);
    RemoveLineTotals(items, i, price);
    SingleLine(items[i], price);
    QuantityOfLine(items, items[i].key);
    forall a, b | 0 <= a < b < |r|
      ensures r[a].key != r[b].key
    {
      var a' := if a < i then a else a + 1;
      var b' := if b < i then b else b + 1;
      assert r[a] == items[a'] && r[b] == items[b'];
    }
  }

  /** Merging a session cart: each of its lines is added into the user's lines in turn. */
  function MergeAll(user: seq<CartItem>, session: seq<CartItem>): (r: seq<CartItem>)
    requires DistinctKeys(user)
    ensures DistinctKeys(r)
    decreases |session|
  {
    if session == [] then user
    else
      var acc := MergeAll(user, session[..|session| - 1]);
      var last := session[|session| - 1];
      assert CanAdd(acc, last.key, last.quantity) by {
        AddLineMeaning(acc, last.key, last.quantity, _ => 0);
      }
      AddLineMeaning(acc, last.key, last.quantity, _ => 0);
      AddLine(acc, last.key, last.quantity)
  }

  /** Merging one more session line adds it to the merge of the lines before it. */
  lemma MergeAllStep(user: seq<CartItem>, lines: seq<CartItem>, i: nat)
    requires DistinctKeys(user) && i < |lines|
    ensures CanAdd(MergeAll(user, lines[..i]), lines[i].key, lines[i].quantity)
    ensures MergeAll(user, lines[..i + 1]) == AddLine(MergeAll(user, lines[..i]), lines[i].key, lines[i].quantity)
  {
    assert lines[..i + 1][..i] == lines[..i];
    var acc := MergeAll(user, lines[..i]);
    AddLineMeaning(acc, lines[i].key, lines[i].quantity, _ => 0);
  }

  /**
   * No quantity is lost or invented by a merge: every key ends with the sum of its quantities in
   * the two carts, and the item counts and the subtotals add up.
   */
  lemma {:induction false} MergeAllMeaning(user: seq<CartItem>, session: seq<CartItem>, price: ItemKey -> int)
    requires DistinctKeys(user)
    ensures forall k :: QuantityOf(MergeAll(user, session), k) == QuantityOf(user, k) + QuantityOf(session, k)
    ensures TotalItems(MergeAll(user, session)) == TotalItems(user) + TotalItems(session)
    ensures Subtotal(MergeAll(user, session), price) == Subtotal(user, price) + Subtotal(session, price)
    decreases |session|
  {
    if session != [] {
      var i := |session| - 1;
      MergeAllStep(user, session, i);
      assert session[..i + 1] == session;
      var init := session[..i];
      MergeAllMeaning(user, init, price);
      assert session == init + [session[i]];
      MergeOneMoreQuantities(user, init, session[i], MergeAll(user, init), MergeAll(user, session));
      MergeOneMoreTotals(user, init, session[i], MergeAll(user, init), MergeAll(user, session), price);
    }
  }

  /** Adding one session line to a partial merge keeps each key's quantity the sum of its quantities in the two carts. */
  lemma MergeOneMoreQuantities(user: seq<CartItem>, init: seq<CartItem>, last: CartItem, acc: seq<CartItem>, r: seq<CartItem>)
    requires DistinctKeys(acc) && CanAdd(acc, last.key, last.quantity) && r == AddLine(acc, last.key, last.quantity)
    requires forall k :: QuantityOf(acc, k) == QuantityOf(user, k) + QuantityOf(init, k)
    ensures forall k :: QuantityOf(r, k) == QuantityOf(user, k) + QuantityOf(init + [last], k)
  {
    AddLineMeaning(acc, last.key, last.quantity, _ => 0);
    forall k
      ensures QuantityOf(r, k) == QuantityOf(user, k) + QuantityOf(init + [last], k)
    {
      QuantitySnoc(init, last, k);
    }
  }

  lemma QuantitySnoc(init: seq<CartItem>, last: CartItem, k: ItemKey)
    ensures QuantityOf(init + [last], k) == QuantityOf(init, k) + if last.key == k then last.quantity else 0
  {
    assert (init + [last])[..|init + [last]| - 1] == init;
  }

  /** Adding one session line to a partial merge keeps the item count and the subtotal equal to those of the two carts. */
  lemma MergeOneMoreTotals(user: seq<CartItem>, init: seq<CartItem>, last: CartItem, acc: seq<CartItem>, r: seq<CartItem>,
                           price: ItemKey -> int)
    requires DistinctKeys(acc) && CanAdd(acc, last.key, last.quantity) && r == AddLine(acc, last.key, last.quantity)
    requires TotalItems(acc) == TotalItems(user) + TotalItems(init)
    requires Subtotal(acc, price) == Subtotal(user, price) + Subtotal(init, price)
    ensures TotalItems(r) == TotalItems(user) + TotalItems(init + [last])
    ensures Subtotal(r, price) == Subtotal(user, price) + Subtotal(init + [last], price)
  {
    AddLineMeaning(acc, last.key, last.quantity, price);
    TotalsAppend(init, [last], price);
    SingleLine(last, price);
  }

  /** The three lookups of add_to_cart find the product (active), the weight and the bean type. */
  predicate KeyFound(activeProducts: set<int>, weights: set<int>, beanTypes: set<int>, key: ItemKey)
  {
    key.product in activeProducts && key.weight in weights && key.beanType in beanTypes
  }

  /** A cart: its lines in the order they were added. */
  class Cart {
    var items: seq<CartItem>

    /** unique_together on (cart, product, weight, bean_type). */
    ghost predicate Valid()
      reads this
    {
      DistinctKeys(items)
    }

    constructor ()
      ensures Valid() && items == []
    {
      items := [];
    }

    /**
     * add_to_cart: a product that does not exist or is not active is a 404; without a weight and
     * a bean type nothing changes; an unknown weight or bean type is a 404. Otherwise the line for
     * the key is created with the quantity or grows by it. A quantity that would leave the line
     * negative is refused by the database and nothing changes. Once the line is saved, a
     * signed-in customer's 'cart' interaction with the product is recorded. `activeProducts`,
     * `weights` and `beanTypes` are the ids the three lookups can find.
     */
    method AddToCart(activeProducts: set<int>, weights: set<int>, beanTypes: set<int>,
                     weightGiven: bool, beanTypeGiven: bool, key: ItemKey, quantity: int,
                     interactions: RecommendationModels.InteractionTable, cache: Recommendations.ProfileCache,
                     user: Option<int>, now: int)
      returns (outcome: CartOutcome)
      requires Valid() && interactions.Valid()
      modifies this, interactions, cache
      ensures Valid() && interactions.Valid()
      ensures key.product !in activeProducts ==> outcome == NoSuchItem
      ensures key.product in activeProducts && !(weightGiven && beanTypeGiven) ==> outcome == MissingChoice
      ensures key.product in activeProducts && weightGiven && beanTypeGiven ==>
        (key.weight !in weights || key.beanType !in beanTypes ==> outcome == NoSuchItem)
      ensures outcome != Done ==> items == old(items)
      ensures KeyFound(activeProducts, weights, beanTypes, key) && weightGiven && beanTypeGiven ==>
        (!CanAdd(old(items), key, quantity) ==> outcome == Refused) &&
        (CanAdd(old(items), key, quantity) ==> outcome == Done && items == AddLine(old(items), key, quantity))
      ensures outcome == Done && user.Some? ==>
        interactions.rows ==
          Recommendations.Bump(old(interactions.rows), RecommendationModels.InteractionKey(user.value, key.product, "cart"), now) &&
        cache.entries == old(cache.entries) - {user.value}
      ensures !(outcome == Done && user.Some?) ==>
        interactions.rows == old(interactions.rows) && cache.entries == old(cache.entries)
    {
      if key.product !in activeProducts {
        return NoSuchItem;
      }
      if !weightGiven || !beanTypeGiven {
        return MissingChoice;
      }
      if key.weight !in weights || key.beanType !in beanTypes {
        return NoSuchItem;
      }
      if !CanAdd(items, key, quantity) {
        return Refused;
      }
      AddLineMeaning(items, key, quantity, _ => 0);
      match Find(items, key) {
        case None =>
          items := items + [CartItem(key, quantity)];
        case Some(i) =>
          items := items[i := CartItem(key, items[i].quantity + quantity)];
      }
      outcome := Done;
      if user.Some? {
        Recommendations.RecordInteraction(interactions, cache, user.value, key.product, "cart", now);
      }
    }

    /** update_cart_item: a positive quantity replaces the line's, anything else deletes the line. */
    method UpdateCartItem(key: ItemKey, quantity: int) returns (outcome: CartOutcome)
      requires Valid()
      modifies this
      ensures Valid()
      ensures Find(old(items), key).None? ==> outcome == NoSuchItem && items == old(items)
      ensures Find(old(items), key).Some? && quantity > 0 ==>
        outcome == Done && items == SetLine(old(items), Find(old(items), key).value, quantity)
      ensures Find(old(items), key).Some? && quantity <= 0 ==>
        outcome == Done && items == RemoveLine(old(items), Find(old(items), key).value)
    {
      var found := Find(items, key);
      if found.None? {
        return NoSuchItem;
      }
      var i := found.value;
      if quantity > 0 {
        SetLineMeaning(items, i, quantity, _ => 0);
        items := items[i := items[i].(quantity := quantity)];
      } else {
        RemoveLineMeaning(items, i, _ => 0);
        items := items[..i] + items[i + 1..];
      }
      outcome := Done;
    }

    /** remove_cart_item: the line is deleted. */
    method RemoveCartItem(key: ItemKey) returns (outcome: CartOutcome)
      requires Valid()
      modifies this
      ensures Valid()
      ensures Find(old(items), key).None? ==> outcome == NoSuchItem && items == old(items)
      ensures Find(old(items), key).Some? ==>
        outcome == Done && items == RemoveLine(old(items), Find(old(items), key).value)
    {
      var found := Find(items, key);
      if found.None? {
        return NoSuchItem;
      }
      RemoveLineMeaning(items, found.value, _ => 0);
      items := items[..found.value] + items[found.value + 1..];
      outcome := Done;
    }

    /**
     * get_or_create_cart, for a signed-in user whose cart already existed and whose session had
     * its own cart: each session line is added to the matching line or moved over, then the
     * session cart is deleted.
     */
    method MergeSessionCart(session: Cart)
      requires Valid() && session != this
      modifies this, session
      ensures Valid()
      ensures items == MergeAll(old(items), old(session.items))
      ensures session.items == []
    {
      var lines := session.items;
      var i := 0;
      while i < |lines|
        invariant 0 <= i <= |lines|
        invariant DistinctKeys(old(items))
        invariant items == MergeAll(old(items), lines[..i])
      {
        var line := lines[i];
        MergeAllStep(old(items), lines, i);
        match Find(items, line.key) {
          case Some(j) =>
            items := items[j := CartItem(line.key, items[j].quantity + line.quantity)];
          case None =>
            items := items + [line];
        }
        i := i + 1;
      }
      assert lines[..i] == lines;
      session.items := [];
    }
  }

  datatype CartOutcome = Done | MissingChoice | Refused | NoSuchItem

  /**
   * The cascade of deleting a weight or a bean type into every cart: each cart loses the lines
   * that point at it, and each cart with one line per key keeps one line per key.
   */
  method DropLinesFromCarts(carts: set<Cart>, c: Choice)
    modifies carts
    ensures forall cart :: cart in carts ==> cart.items == DropLinesUsing(old(cart.items), c)
    ensures forall cart :: cart in carts && old(cart.Valid()) ==> cart.Valid()
  {
    var rest := carts;
    while rest != {}
      invariant rest <= carts
      invariant forall cart :: cart in carts && cart !in rest ==> cart.items == DropLinesUsing(old(cart.items), c)
      invariant forall cart :: cart in rest ==> cart.items == old(cart.items)
      invariant forall cart :: cart in carts && old(cart.Valid()) ==> cart.Valid()
      decreases rest
    {
      var cart :| cart in rest;
      DropLinesMeaning(cart.items, c);
      cart.items := DropLinesUsing(cart.items, c);
      rest := rest - {cart};
    }
  }

  // ---------------------------------------------------------------- apply_promo_code

  /** The session: the promo code applied to the cart, if any. */
  class Session {
    var promoCode: Option<string>

    constructor ()
      ensures promoCode == None
    {
      promoCode := None;
    }
  }

  /** The JSON reply of apply_promo_code. */
  datatype PromoReply = Applied(code: string) | Rejected(message: string) | BelowMinimum(minOrderAmount: int)

  /**
   * apply_promo_code: the stripped code must be non-empty, the cart must have items, the code
   * must pass validate_promo_code and the subtotal must reach the code's minimum order amount.
   * An exception while validating (several codes matching case-insensitively) gives a generic error.
   */
  function PromoReplyFor(raw: string, cartEmpty: bool, subtotal: int, promos: seq<PromoCode>, usages: seq<Usage>,
                         user: int, now: int): (r: PromoReply)
    ensures Strip(raw) == "" <==> r == Rejected("Please enter a promo code")
    ensures Strip(raw) != "" && cartEmpty ==> r == Rejected("Your cart is empty")
    ensures r.Applied? <==>
      Strip(raw) != "" && !cartEmpty &&
      var check := ValidatePromoCode(promos, usages, user, Strip(raw), now);
      check.Ok? && check.value.isValid && subtotal >= check.value.promo.value.minOrderAmount
    ensures r.Applied? ==> r.code == Strip(raw)
    ensures r.BelowMinimum? ==> subtotal < r.minOrderAmount
    ensures Strip(raw) != "" && !cartEmpty && LookupIExact(promos, Strip(raw)) == Ambiguous ==>
      r == Rejected("Error validating promo code")
  {
    var code := Strip(raw);
    if code == "" then Rejected("Please enter a promo code")
    else if cartEmpty then Rejected("Your cart is empty")
    else match ValidatePromoCode(promos, usages, user, code, now)
      case Err(_) => Rejected("Error validating promo code")
      case Ok(check) =>
        if check.isValid && check.promo.Some? then
          if subtotal < check.promo.value.minOrderAmount then BelowMinimum(check.promo.value.minOrderAmount)
          else Applied(code)
        else
          assert check.message != "Please enter a promo code" by {
            ValidateMessages(promos, usages, user, code, now);
          }
          Rejected(check.message)
  }

  /** None of validate_promo_code's messages is the empty-code message. */
  lemma ValidateMessages(promos: seq<PromoCode>, usages: seq<Usage>, user: int, code: string, now: int)
    requires ValidatePromoCode(promos, usages, user, code, now).Ok?
    ensures ValidatePromoCode(promos, usages, user, code, now).value.message != "Please enter a promo code"
  {
  }

  /**
   * A code stored in the session is one that validated at that moment, and its deduction on the
   * current subtotal is granted, not suppressed by the minimum order amount.
   */
  lemma AppliedCodeCounts(raw: string, cartEmpty: bool, subtotal: int, promos: seq<PromoCode>, usages: seq<Usage>,
                          user: int, now: int)
    requires PromoReplyFor(raw, cartEmpty, subtotal, promos, usages, user, now).Applied?
    ensures var check := ValidatePromoCode(promos, usages, user, Strip(raw), now);
      check.Ok? && check.value.isValid &&
      LookupIExact(promos, Strip(raw)).Found? &&
      var p := LookupIExact(promos, Strip(raw)).promo;
      subtotal >= p.minOrderAmount && (p.discountType == Fixed ==> PromoDeduction(p, subtotal) == p.value)
  {
  }

  /** apply_promo_code's session update: the code is stored only when it is applied. */
  method ApplyPromoCode(session: Session, raw: string, cartEmpty: bool, subtotal: int, promos: seq<PromoCode>,
                        usages: seq<Usage>, user: int, now: int) returns (reply: PromoReply)
    modifies session
    ensures reply == PromoReplyFor(raw, cartEmpty, subtotal, promos, usages, user, now)
    ensures reply.Applied? ==> session.promoCode == Some(reply.code)
    ensures !reply.Applied? ==> session.promoCode == old(session.promoCode)
  {
    reply := PromoReplyFor(raw, cartEmpty, subtotal, promos, usages, user, now);
    if reply.Applied? {
      session.promoCode := Some(reply.code);
    }
  }

  // ---------------------------------------------------------------- orders

  /** A status history row: the status, a comment and who changed it. */
  datatype HistoryEntry = HistoryEntry(status: string, comment: string, changedBy: int)

  /** An order line: a snapshot of the cart line with its unit and total price. */
  datatype OrderLine = OrderLine(key: ItemKey, quantity: nat, unitPrice: int, totalPrice: int)

  /** The order lines created from the cart lines, in order. */
  function LinesOf(items: seq<CartItem>, price: ItemKey -> int): (lines: seq<OrderLine>)
    ensures |lines| == |items|
    ensures forall i :: 0 <= i < |items| ==>
      lines[i] == OrderLine(items[i].key, items[i].quantity, price(items[i].key), TotalPrice(items[i], price))
  {
    seq(|items|, i requires 0 <= i < |items| =>
      OrderLine(items[i].key, items[i].quantity, price(items[i].key), TotalPrice(items[i], price)))
  }

  function LinesTotal(lines: seq<OrderLine>): int
  {
    if lines == [] then 0 else LinesTotal(lines[..|lines| - 1]) + lines[|lines| - 1].totalPrice
  }

  /** The order lines add up to the cart's subtotal. */
  lemma {:induction false} LinesAddUp(items: seq<CartItem>, price: ItemKey -> int)
    ensures LinesTotal(LinesOf(items, price)) == Subtotal(items, price)
  {
    if items != [] {
      var init := items[..|items| - 1];
      LinesAddUp(init, price);
      assert LinesOf(items, price)[..|items| - 1] == LinesOf(init, price);
    }
  }

  /** The (discount percent, discount amount, total) of a new order. */
  datatype OrderAmounts = OrderAmounts(discountPercent: int, discountAmount: int, total: int)

  /**
   * place_order's amounts: with an active discount, its percent, its amount and final amount plus
   * shipping; otherwise (inactive, or calculate_discount raised) no discount and cart.total.
   */
  function AmountsFor(subtotal: int, discount: Result<Discount>): (a: OrderAmounts)
    ensures discount.Ok? && discount.value.isActive ==>
      a == OrderAmounts(discount.value.totalPercent, discount.value.totalAmount, discount.value.finalAmount + Shipping)
    ensures !(discount.Ok? && discount.value.isActive) ==> a == OrderAmounts(0, 0, subtotal + Shipping)
  {
    if discount.Ok? && discount.value.isActive then
      OrderAmounts(discount.value.totalPercent, discount.value.totalAmount, discount.value.finalAmount + Shipping)
    else OrderAmounts(0, 0, subtotal + Shipping)
  }

  /** An order's total is always its subtotal less its discount plus the shipping. */
  lemma AmountsBalance(subtotal: int, discount: Result<Discount>)
    requires discount.Ok? ==> discount.value.finalAmount + discount.value.totalAmount == subtotal
    ensures AmountsFor(subtotal, discount).total + AmountsFor(subtotal, discount).discountAmount == subtotal + Shipping
  {
  }

  /** promo_code_used: the code, when one was given and calculate_discount found it valid. */
  function PromoUsed(promoCode: string, discount: Result<Discount>): (r: Option<string>)
    ensures r.Some? <==> promoCode != "" && discount.Ok? && discount.value.promoCodeValid
    ensures r.Some? ==> r.value == promoCode
  {
    if promoCode != "" && discount.Ok? && discount.value.promoCodeValid then Some(promoCode) else None
  }

  /** The history rows appended for a discount: one per breakdown entry, split as save_discount_history does. */
  function HistoryRowsFor(d: Discount): (rows: seq<HistoryRow>)
    ensures |rows| == |d.breakdown|
    ensures forall i :: 0 <= i < |rows| ==> rows[i] == HistoryRowAsWritten(d, d.breakdown[i])
    ensures PercentSum(d.breakdown) == d.totalPercent > 0 ==>
      -(PercentCount(d.breakdown) as int) <= 2 * PercentRowsTotal(rows) - 2 * (d.totalAmount - d.promoAmount) <= PercentCount(d.breakdown)
  {
    var rows := seq(|d.breakdown|, i requires 0 <= i < |d.breakdown| => HistoryRowAsWritten(d, d.breakdown[i]));
    if PercentSum(d.breakdown) == d.totalPercent > 0 then
      HistoryRowsAddUpUncapped(d, rows);
      rows
    else
      rows
  }

  /** An order: its amounts at checkout, its status and the history of status changes. */
  class Order {
    const number: string
    const user: int
    const subtotal: int
    const shipping: int
    const discountPercent: int
    const discountAmount: int
    const promoCodeUsed: Option<string>
    const total: int
    const lines: seq<OrderLine>
    var status: string
    var managerComment: string
    var history: seq<HistoryEntry>

    /** The last history row records the current status. */
    ghost predicate Valid()
      reads this
    {
      history != [] && history[|history| - 1].status == status
    }

    constructor (number: string, user: int, subtotal: int, amounts: OrderAmounts, promoCodeUsed: Option<string>,
                 lines: seq<OrderLine>)
      ensures this.number == number && this.user == user && this.subtotal == subtotal && shipping == Shipping
      ensures discountPercent == amounts.discountPercent && discountAmount == amounts.discountAmount
      ensures total == amounts.total && this.promoCodeUsed == promoCodeUsed && this.lines == lines
      ensures status == "processing" && managerComment == ""
      ensures history == [HistoryEntry("processing", "", user)]
      ensures Valid()
    {
      this.number := number;
      this.user := user;
      this.subtotal := subtotal;
      shipping := Shipping;
      discountPercent := amounts.discountPercent;
      discountAmount := amounts.discountAmount;
      total := amounts.total;
      this.promoCodeUsed := promoCodeUsed;
      this.lines := lines;
      status := "processing";
      managerComment := "";
      history := [HistoryEntry("processing", "", user)];
    }

    /**
     * cancel_order: only the order's own customer reaches it, and only a processing or packing
     * order is cancelled, with one history row saying so.
     */
    method Cancel(requester: int) returns (outcome: CancelOutcome)
      requires Valid()
      modifies this
      ensures Valid()
      ensures requester != user ==> outcome == NotYours && status == old(status) && history == old(history)
      ensures requester == user && !CanCancel(old(status)) ==>
        outcome == NotCancellable && status == old(status) && history == old(history)
      ensures requester == user && CanCancel(old(status)) ==>
        outcome == Cancelled && status == "cancelled_user" &&
        history == old(history) + [HistoryEntry("cancelled_user", "Cancelled by user", requester)]
      ensures managerComment == old(managerComment)
    {
      if requester != user {
        return NotYours;
      }
      if !CanCancel(status) {
        return NotCancellable;
      }
      status := "cancelled_user";
      history := history + [HistoryEntry("cancelled_user", "Cancelled by user", requester)];
      outcome := Cancelled;
    }

    /**
     * The manager's status form: a status outside the choices fails validation and changes
     * nothing; otherwise status and comment are saved, and a history row is added only when the
     * status actually changed.
     */
    method UpdateStatus(newStatus: string, comment: string, manager: int) returns (saved: bool)
      requires Valid()
      modifies this
      ensures Valid()
      ensures saved <==> newStatus in Statuses
      ensures !saved ==> status == old(status) && managerComment == old(managerComment) && history == old(history)
      ensures saved ==> status == newStatus && managerComment == comment
      ensures saved && newStatus != old(status) ==> history == old(history) + [HistoryEntry(newStatus, comment, manager)]
      ensures saved && newStatus == old(status) ==> history == old(history)
    {
      if newStatus !in Statuses {
        return false;
      }
      var oldStatus := status;
      status := newStatus;
      managerComment := comment;
      if oldStatus != status {
        history := history + [HistoryEntry(status, comment, manager)];
      }
      saved := true;
    }
  }

  datatype CancelOutcome = Cancelled | NotCancellable | NotYours

  /**
   * Under the customer's cancellation rule an order moves to cancelled_user only from processing
   * or packing, and a cancelled order cannot be cancelled again.
   */
  lemma CancelledStaysCancelled()
    ensures !CanCancel("cancelled_user") && !CanCancel("cancelled_manager")
    ensures !CanCancel("shipping") && !CanCancel("completed")
  {
  }

  /**
   * The bookkeeping of a checkout's discount as written: the history rows when calculate_discount
   * returned, and nothing else. The usage row at orders/views.py:348-353 is created with a
   * `discount_amount` keyword, but the PromoCodeUsage field is `discount_applied`
   * (discounts/models.py:267), so the constructor raises TypeError; the `except Exception` of
   * line 358 swallows it before `times_used += 1` runs, and the history rows saved earlier stay.
   */
  ghost predicate TablesAfterCheckout(promos0: seq<PromoCode>, usages0: seq<Usage>, history0: seq<HistoryRow>,
                                      promos: seq<PromoCode>, usages: seq<Usage>, history: seq<HistoryRow>,
                                      discount: Result<Discount>)
  {
    history == history0 + (if discount.Ok? then HistoryRowsFor(discount.value) else []) &&
    usages == usages0 && promos == promos0
  }

  /** save_discount_history and the promo usage recording of place_order, as written. */
  method RecordDiscount(tables: DiscountTables, promoCode: string, discount: Result<Discount>, user: int)
    modifies tables
    ensures TablesAfterCheckout(old(tables.promos), old(tables.usages), old(tables.history),
                                tables.promos, tables.usages, tables.history, discount)
  {
    if discount.Ok? {
      var rows := SaveDiscountHistory(discount.value);
      tables.history := tables.history + rows;
      // The usage row's keyword does not name a field: the create raises and the handler
      // swallows it, so neither the usage row nor the new times_used is saved.
    }
  }

  /**
   * The bookkeeping the checkout evidently intends: the history rows, and, for a promo code it
   * found valid, a usage row for this customer and one more use on the code's row (nothing when
   * the lookup no longer finds exactly one row).
   */
  ghost predicate TablesAfterCheckoutIntended(promos0: seq<PromoCode>, usages0: seq<Usage>, history0: seq<HistoryRow>,
                                              promos: seq<PromoCode>, usages: seq<Usage>, history: seq<HistoryRow>,
                                              promoCode: string, discount: Result<Discount>, user: int)
  {
    history == history0 + (if discount.Ok? then HistoryRowsFor(discount.value) else []) &&
    if PromoUsed(promoCode, discount).Some? && LookupIExact(promos0, promoCode).Found? then
      usages == usages0 + [Usage(LookupIExact(promos0, promoCode).promo.code, user)] &&
      promos == MarkUsed(promos0, promoCode)
    else
      usages == usages0 && promos == promos0
  }

  /** The corrected recording: the usage row is created with its `discount_applied` field. */
  method RecordDiscountIntended(tables: DiscountTables, promoCode: string, discount: Result<Discount>, user: int)
    modifies tables
    ensures TablesAfterCheckoutIntended(old(tables.promos), old(tables.usages), old(tables.history),
                                        tables.promos, tables.usages, tables.history, promoCode, discount, user)
  {
    if discount.Ok? {
      var rows := SaveDiscountHistory(discount.value);
      tables.history := tables.history + rows;
      if promoCode != "" && discount.value.promoCodeValid {
        match LookupIExact(tables.promos, promoCode) {
          case Found(p) =>
            tables.usages := tables.usages + [Usage(p.code, user)];
            tables.promos := MarkUsed(tables.promos, promoCode);
          case _ =>
        }
      }
    }
  }

  /** The fields of an order placed from a cart with a given discount. */
  ghost predicate OrderFromCart(order: Order, items: seq<CartItem>, price: ItemKey -> int, promoCode: string,
                                discount: Result<Discount>, user: int)
    reads order
  {
    var amounts := AmountsFor(Subtotal(items, price), discount);
    order.user == user &&
    order.subtotal == Subtotal(items, price) && order.shipping == Shipping &&
    order.discountPercent == amounts.discountPercent && order.discountAmount == amounts.discountAmount &&
    order.total == amounts.total &&
    order.promoCodeUsed == PromoUsed(promoCode, discount) &&
    order.lines == LinesOf(items, price) &&
    order.status == "processing" && order.history == [HistoryEntry("processing", "", user)]
  }

  /**
   * place_order: an empty cart places nothing. Otherwise the discount is calculated on the
   * subtotal, an order is created with the cart's subtotal, lines and the discount's amounts,
   * each line records a 'purchase' interaction, the discount's history is recorded (the promo usage
   * is not: see RecordDiscount), the status history starts at processing, the cart is emptied and
   * the session's promo code is removed.
   */
  method PlaceOrder(cart: Cart, session: Session, tables: DiscountTables, user: int, price: ItemKey -> int,
                    promoCode: string, taken: set<string>,
                    s: DiscountSettings, orders: seq<CompletedOrder>, birth: Option<Date>, today: Date, now: int,
                    pow: (real, real) -> real,
                    interactions: RecommendationModels.InteractionTable, cache: Recommendations.ProfileCache)
    returns (order: Order?, discount: Result<Discount>)
    requires FieldsValid(s) && PowLaws(pow) && Calendar.Valid(today) && (birth.Some? ==> Calendar.Valid(birth.value))
    requires exists k :: 1000 <= k <= 9999 && NatToString(k) !in taken
    requires interactions.Valid()
    modifies cart, session, tables, interactions, cache
    ensures interactions.Valid()
    ensures old(cart.items) == [] ==>
      (order == null && cart.items == old(cart.items) &&
       session.promoCode == old(session.promoCode) &&
       tables.promos == old(tables.promos) && tables.usages == old(tables.usages) && tables.history == old(tables.history) &&
       interactions.rows == old(interactions.rows) && cache.entries == old(cache.entries))
    ensures old(cart.items) != [] ==>
      interactions.rows ==
        Recommendations.BumpAll(old(interactions.rows), user, PurchasedProducts(old(cart.items)), "purchase", now) &&
      cache.entries == old(cache.entries) - {user}
    ensures old(cart.items) != [] ==>
      (order != null && fresh(order) && order.Valid() &&
       IsOrderNumber(order.number) && order.number !in taken &&
       OrderFromCart(order, old(cart.items), price, promoCode, discount, user) &&
       order.total + order.discountAmount == order.subtotal + Shipping &&
       TablesAfterCheckout(old(tables.promos), old(tables.usages), old(tables.history),
                           tables.promos, tables.usages, tables.history, discount) &&
       cart.items == [] && session.promoCode == None)
  {
    if cart.items == [] {
      return null, Err("Cart is empty");
    }
    var subtotal := Subtotal(cart.items, price);
    discount := CalculateDiscount(s, orders, birth, today, tables.promos, tables.usages, user, now,
                                  subtotal, promoCode, pow);
    var amounts := AmountsFor(subtotal, discount);
    AmountsBalance(subtotal, discount);
    var number := AssignOrderNumber("", taken);
    order := new Order(number, user, subtotal, amounts, PromoUsed(promoCode, discount), LinesOf(cart.items, price));
    RecordPurchases(interactions, cache, user, cart.items, now);
    RecordDiscount(tables, promoCode, discount, user);
    cart.items := [];
    session.promoCode := None;
  }

  /** The product of each cart line, in order. */
  function PurchasedProducts(items: seq<CartItem>): (r: seq<int>)
    ensures |r| == |items| && forall i :: 0 <= i < |items| ==> r[i] == items[i].key.product
  {
    seq(|items|, i requires 0 <= i < |items| => items[i].key.product)
  }

  /** The 'purchase' interaction place_order records for each line of a non-empty cart, in order. */
  method RecordPurchases(interactions: RecommendationModels.InteractionTable, cache: Recommendations.ProfileCache,
                         user: int, items: seq<CartItem>, now: int)
    requires interactions.Valid() && items != []
    modifies interactions, cache
    ensures interactions.Valid()
    ensures interactions.rows == Recommendations.BumpAll(old(interactions.rows), user, PurchasedProducts(items), "purchase", now)
    ensures cache.entries == old(cache.entries) - {user}
  {
    for i := 0 to |items|
      invariant interactions.Valid()
      invariant interactions.rows ==
        Recommendations.BumpAll(old(interactions.rows), user, PurchasedProducts(items[..i]), "purchase", now)
      invariant cache.entries == if i == 0 then old(cache.entries) else old(cache.entries) - {user}
    {
      Recommendations.RecordInteraction(interactions, cache, user, items[i].key.product, "purchase", now);
      assert PurchasedProducts(items[..i + 1])[..i] == PurchasedProducts(items[..i]);
    }
    assert items[..|items|] == items;
  }

  /**
   * A promo code found by a case-insensitive lookup matches exactly one row, so recording its
   * use raises that row's times_used by one and no other row changes.
   */
  lemma {:induction false} FoundMatchesOneRow(promos: seq<PromoCode>, code: string)
    requires LookupIExact(promos, code).Found?
    ensures exists i :: (0 <= i < |promos| && promos[i] == LookupIExact(promos, code).promo &&
      MarkUsed(promos, code)[i] == promos[i].(timesUsed := promos[i].timesUsed + 1) &&
      forall j :: 0 <= j < |promos| && j != i ==> MarkUsed(promos, code)[j] == promos[j])
  {
    var p := LookupIExact(promos, code).promo;
    MatchCount(promos, code);
    var i :| 0 <= i < |promos| && promos[i] == p;
    forall j | 0 <= j < |promos| && j != i
      ensures !EqualsIgnoreCase(promos[j].code, code)
    {
      if EqualsIgnoreCase(promos[j].code, code) {
        TwoMatches(promos, code, i, j);
      }
    }
  }

  /** Rows with the same codes, index by index, match a code equally often. */
  lemma {:induction false} SameCodesSameMatches(a: seq<PromoCode>, b: seq<PromoCode>, code: string)
    requires |a| == |b| && forall i :: 0 <= i < |a| ==> a[i].code == b[i].code
    ensures MatchIndices(a, code) == MatchIndices(b, code)
  {
    if a != [] {
      var n := |a| - 1;
      assert forall i :: 0 <= i < n ==> a[..n][i].code == b[..n][i].code;
      SameCodesSameMatches(a[..n], b[..n], code);
    }
  }

  /**
   * After a checkout as written, a promo code validates exactly as it did before, for every
   * customer: the use was never counted.
   */
  lemma CheckoutLeavesPromoUnused(promos0: seq<PromoCode>, usages0: seq<Usage>, history0: seq<HistoryRow>,
                                  promos: seq<PromoCode>, usages: seq<Usage>, history: seq<HistoryRow>,
                                  discount: Result<Discount>, code: string, user: int, now: int)
    requires TablesAfterCheckout(promos0, usages0, history0, promos, usages, history, discount)
    ensures ValidatePromoCode(promos, usages, user, code, now) == ValidatePromoCode(promos0, usages0, user, code, now)
  {
  }

  /** The single-use code ONCE: a fixed 1.00 off, one use in all and one per customer. */
  const SingleUse := PromoCode("ONCE", Fixed, 100, 0, Some(1), 1, true, 0, 100, 0)

  /**
   * As written, the single-use code ONCE is still valid for the same customer after a checkout
   * that applied it: neither cap is ever reached.
   */
  lemma SingleUseCodeStaysValid(usages: seq<Usage>, promos: seq<PromoCode>, history: seq<HistoryRow>,
                                discount: Result<Discount>)
    requires discount.Ok? && discount.value.promoCodeValid
    requires TablesAfterCheckout([SingleUse], [], [], promos, usages, history, discount)
    ensures PromoUsed("ONCE", discount).Some?
    ensures ValidatePromoCode(promos, usages, 7, "ONCE", 50) == Ok(PromoCheck(true, "Promo code is valid", Some(SingleUse)))
  {
    assert EqualsIgnoreCase(SingleUse.code, "ONCE");
    assert LookupIExact([SingleUse], "ONCE") == Found(SingleUse) by {
      assert MatchesIExact([SingleUse], "ONCE") == [SingleUse] by {
        assert [SingleUse][..0] == [];
      }
    }
  }

  /**
   * The intended recording counts the use: the lookup finds the code's row with one more use,
   * and the customer has one more usage of it.
   */
  lemma IntendedCheckoutCountsUse(promos0: seq<PromoCode>, usages0: seq<Usage>, history0: seq<HistoryRow>,
                                  promos: seq<PromoCode>, usages: seq<Usage>, history: seq<HistoryRow>,
                                  promoCode: string, discount: Result<Discount>, user: int)
    requires TablesAfterCheckoutIntended(promos0, usages0, history0, promos, usages, history, promoCode, discount, user)
    requires PromoUsed(promoCode, discount).Some? && LookupIExact(promos0, promoCode).Found?
    ensures var p := LookupIExact(promos0, promoCode).promo;
      LookupIExact(promos, promoCode) == Found(p.(timesUsed := p.timesUsed + 1)) &&
      CountUses(usages, p.code, user) == CountUses(usages0, p.code, user) + 1
  {
    var p := LookupIExact(promos0, promoCode).promo;
    LookupOfMarkUsed(promos0, promoCode);
    assert usages[..|usages| - 1] == usages0;
  }

  /** A code the lookup finds is found again after its use is marked, with one more use. */
  lemma LookupOfMarkUsed(promos: seq<PromoCode>, code: string)
    requires LookupIExact(promos, code).Found?
    ensures var p := LookupIExact(promos, code).promo;
      LookupIExact(MarkUsed(promos, code), code) == Found(p.(timesUsed := p.timesUsed + 1))
  {
    var p := LookupIExact(promos, code).promo;
    var marked := MarkUsed(promos, code);
    var i :| 0 <= i < |promos| && promos[i] == p;
    assert marked[i] == p.(timesUsed := p.timesUsed + 1);
    assert marked[i] in marked;
    SameCodesSameMatches(promos, marked, code);
    MatchCount(promos, code);
    MatchCount(marked, code);
    SingleMatchFound(marked, code, marked[i]);
  }

  /** When exactly one row matches, the lookup finds any matching row of the table. */
  lemma SingleMatchFound(rows: seq<PromoCode>, code: string, x: PromoCode)
    requires |MatchesIExact(rows, code)| == 1
    requires x in rows && EqualsIgnoreCase(x.code, code)
    ensures LookupIExact(rows, code) == Found(x)
  {
    var m := MatchesIExact(rows, code);
    assert x in m;
    assert m == [m[0]];
  }

  /**
   * With the intended recording, a checkout that uses a code's last global use or the customer's
   * last use makes the next validation of that code by the customer fail.
   */
  lemma IntendedCheckoutUsesUpCode(promos0: seq<PromoCode>, usages0: seq<Usage>, history0: seq<HistoryRow>,
                                   promos: seq<PromoCode>, usages: seq<Usage>, history: seq<HistoryRow>,
                                   promoCode: string, discount: Result<Discount>, user: int, now: int)
    requires TablesAfterCheckoutIntended(promos0, usages0, history0, promos, usages, history, promoCode, discount, user)
    requires PromoUsed(promoCode, discount).Some? && LookupIExact(promos0, promoCode).Found?
    requires var p := LookupIExact(promos0, promoCode).promo;
      (p.maxUses.Some? && p.maxUses.value != 0 && p.timesUsed + 1 >= p.maxUses.value) ||
      CountUses(usages0, p.code, user) + 1 >= p.maxUsesPerUser
    ensures ValidatePromoCode(promos, usages, user, promoCode, now).Ok?
    ensures !ValidatePromoCode(promos, usages, user, promoCode, now).value.isValid
  {
    IntendedCheckoutCountsUse(promos0, usages0, history0, promos, usages, history, promoCode, discount, user);
  }
}

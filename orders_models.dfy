// Carts and orders (orders/models.py): cart totals with the fixed shipping charge, the
// cancellable statuses, the status badge classes and order-number assignment. Money is in cents.
module OrderModels {
  import opened Wrappers
  import opened Text
  import opened Sets

  /** A cart line is identified by (product, weight, bean type); the cart holds at most one line per key. */
  datatype ItemKey = ItemKey(product: int, weight: int, beanType: int)

  /** A cart item: its key and its quantity (a PositiveIntegerField, so never negative). */
  datatype CartItem = CartItem(key: ItemKey, quantity: nat)

  /**
   * CartItem.total_price: the unit price times the quantity. The unit price is
   * get_price_for_weight of the item's product, weight and bean type, a function of the key.
   */
  function TotalPrice(item: CartItem, price: ItemKey -> int): int
  {
    price(item.key) * item.quantity
  }

  /** The shipping charge, fixed at 2.00. */
  const Shipping := 200

  /** total_items: the sum of the quantities. */
  function TotalItems(items: seq<CartItem>): nat
  {
    if items == [] then 0 else TotalItems(items[..|items| - 1]) + items[|items| - 1].quantity
  }

  /** subtotal: the sum of the line totals. */
  function Subtotal(items: seq<CartItem>, price: ItemKey -> int): int
  {
    if items == [] then 0 else Subtotal(items[..|items| - 1], price) + TotalPrice(items[|items| - 1], price)
  }

  /** total: subtotal plus shipping. */
  function Total(items: seq<CartItem>, price: ItemKey -> int): (t: int)
    ensures t - Subtotal(items, price) == Shipping
  {
    Subtotal(items, price) + Shipping
  }

  /** The quantity held under one key (the sum over the lines with that key). */
  function QuantityOf(items: seq<CartItem>, key: ItemKey): nat
  {
    if items == [] then 0
    else QuantityOf(items[..|items| - 1], key) + (if items[|items| - 1].key == key then items[|items| - 1].quantity else 0)
  }

  /** unique_together: at most one line per (product, weight, bean type). */
  predicate DistinctKeys(items: seq<CartItem>)
  {
    forall i, j :: 0 <= i < j < |items| ==> items[i].key != items[j].key
  }

  /** Totals are additive: the totals of two groups of lines add up, key by key too. */
  lemma {:induction false} TotalsAppend(a: seq<CartItem>, b: seq<CartItem>, price: ItemKey -> int)
    ensures TotalItems(a + b) == TotalItems(a) + TotalItems(b)
    ensures Subtotal(a + b, price) == Subtotal(a, price) + Subtotal(b, price)
    ensures forall k :: QuantityOf(a + b, k) == QuantityOf(a, k) + QuantityOf(b, k)
    decreases |b|
  {
    if b == [] {
      assert a + b == a;
    } else {
      var b' := b[..|b| - 1];
      assert (a + b)[..|a + b| - 1] == a + b';
      TotalsAppend(a, b', price);
    }
  }

  /** The totals of a single line. */
  lemma SingleLine(item: CartItem, price: ItemKey -> int)
    ensures TotalItems([item]) == item.quantity
    ensures Subtotal([item], price) == TotalPrice(item, price)
    ensures forall k :: QuantityOf([item], k) == if k == item.key then item.quantity else 0
  {
    assert [item][..0] == [];
  }

  /** In a cart with one line per key, the quantity of a key is that of its line, and the keys not present hold nothing. */
  lemma {:induction false} QuantityOfLine(items: seq<CartItem>, key: ItemKey)
    requires DistinctKeys(items)
    ensures forall i :: 0 <= i < |items| && items[i].key == key ==> QuantityOf(items, key) == items[i].quantity
    ensures (forall i :: 0 <= i < |items| ==> items[i].key != key) ==> QuantityOf(items, key) == 0
  {
    if items != [] {
      var init := items[..|items| - 1];
      assert forall i :: 0 <= i < |init| ==> init[i] == items[i];
      QuantityOfLine(init, key);
      if items[|items| - 1].key == key {
        assert forall i :: 0 <= i < |init| ==> init[i].key != key;
      }
    }
  }

  /** A weight or a bean type a cart line can point at. */
  datatype Choice = WeightChoice(weight: int) | BeanTypeChoice(beanType: int)

  predicate UsesChoice(key: ItemKey, c: Choice)
  {
    match c
    case WeightChoice(w) => key.weight == w
    case BeanTypeChoice(b) => key.beanType == b
  }

  /**
   * on_delete=CASCADE on CartItem.weight and CartItem.bean_type: deleting a weight or a bean
   * type deletes the cart lines that point at it, and the other lines stay in their order.
   */
  function DropLinesUsing(items: seq<CartItem>, c: Choice): (r: seq<CartItem>)
    ensures forall x :: x in r <==> x in items && !UsesChoice(x.key, c)
    ensures |r| <= |items|
    ensures (forall i :: 0 <= i < |items| ==> !UsesChoice(items[i].key, c)) ==> r == items
  {
    if items == [] then []
    else
      var init := DropLinesUsing(items[..|items| - 1], c);
      var last := items[|items| - 1];
      assert items == items[..|items| - 1] + [last];
      if UsesChoice(last.key, c) then init else init + [last]
  }

  /**
   * After the cascade no key that uses the deleted choice holds anything, every other key keeps
   * its quantity, and a cart with one line per key still has one line per key.
   */
  lemma {:induction false} DropLinesMeaning(items: seq<CartItem>, c: Choice)
    ensures forall k :: QuantityOf(DropLinesUsing(items, c), k) == if UsesChoice(k, c) then 0 else QuantityOf(items, k)
    ensures DistinctKeys(items) ==> DistinctKeys(DropLinesUsing(items, c))
  {
    if items != [] {
      var init := items[..|items| - 1];
      var last := items[|items| - 1];
      var r0 := DropLinesUsing(init, c);
      DropLinesMeaning(init, c);
      if !UsesChoice(last.key, c) {
        assert (r0 + [last])[..|r0|] == r0;
        if DistinctKeys(items) {
          forall i | 0 <= i < |r0|
            ensures r0[i].key != last.key
          {
            assert r0[i] in r0;
            var j :| 0 <= j < |init| && init[j] == r0[i];
            assert items[j] == init[j];
          }
        }
      }
    }
  }

  /** An empty cart costs only the shipping; non-negative prices keep the subtotal non-negative. */
  lemma {:induction false} SubtotalNonNegative(items: seq<CartItem>, price: ItemKey -> int)
    requires forall i :: 0 <= i < |items| ==> price(items[i].key) >= 0
    ensures Subtotal(items, price) >= 0
    ensures Total(items, price) >= Shipping
    ensures items == [] ==> Total(items, price) == Shipping
  {
    if items != [] {
      var init := items[..|items| - 1];
      assert forall i :: 0 <= i < |init| ==> init[i] == items[i];
      SubtotalNonNegative(init, price);
      var last := items[|items| - 1];
      assert TotalPrice(last, price) >= 0 by {
        NonNegativeProduct(price(last.key), last.quantity);
      }
    }
  }

  lemma NonNegativeProduct(a: int, b: int)
    requires a >= 0 && b >= 0
    ensures a * b >= 0
  {
  }

  /** A cart of positive quantities has at least as many items as lines, and no items exactly when it is empty. */
  lemma {:induction false} TotalItemsAtLeastLines(items: seq<CartItem>)
    requires forall i :: 0 <= i < |items| ==> items[i].quantity >= 1
    ensures TotalItems(items) >= |items|
    ensures TotalItems(items) == 0 <==> items == []
  {
    if items != [] {
      var init := items[..|items| - 1];
      assert forall i :: 0 <= i < |init| ==> init[i] == items[i];
      TotalItemsAtLeastLines(init);
    }
  }

  // ---------------------------------------------------------------- Order

  const Statuses: seq<string> :=
    ["processing", "packing", "shipping", "completed", "cancelled_user", "cancelled_manager"]

  /** can_cancel: only a processing or packing order can be cancelled by its customer. */
  predicate CanCancel(status: string)
  {
    status in ["processing", "packing"]
  }

  /** An order the customer may cancel has not shipped yet; shipped, completed and cancelled ones cannot be cancelled. */
  lemma CanCancelExactly(status: string)
    ensures CanCancel(status) <==> status == "processing" || status == "packing"
    ensures CanCancel(status) ==> status == Statuses[0] || status == Statuses[1]
    ensures forall i :: 2 <= i < |Statuses| ==> !CanCancel(Statuses[i])
  {
  }

  const StatusClasses: map<string, string> := map[
    "processing" := "bg-warning",
    "packing" := "bg-info",
    "shipping" := "bg-primary",
    "completed" := "bg-success",
    "cancelled_user" := "bg-secondary",
    "cancelled_manager" := "bg-danger"]

  /** status_display_class: the badge class of a status, 'bg-secondary' for an unknown one. */
  function StatusDisplayClass(status: string): (c: string)
    ensures status in StatusClasses ==> c == StatusClasses[status]
    ensures status !in StatusClasses ==> c == "bg-secondary"
  {
    if status in StatusClasses then StatusClasses[status] else "bg-secondary"
  }

  /**
   * Every status choice has a class, and the classes tell the statuses apart except that a
   * customer cancellation shares the fallback class of unknown statuses.
   */
  lemma StatusClassesDistinct(a: string, b: string)
    requires a in Statuses && b in Statuses && a != b
    ensures StatusDisplayClass(a) != StatusDisplayClass(b)
  {
  }

  lemma UnknownStatusLooksCancelled(status: string)
    requires status !in Statuses
    ensures StatusDisplayClass(status) == StatusDisplayClass("cancelled_user")
  {
    assert forall k :: k in StatusClasses <==> k in Statuses;
  }

  /** The candidate order numbers: the decimal strings of 1000 to 9999. */
  predicate IsOrderNumber(s: string)
  {
    exists k :: 1000 <= k <= 9999 && s == NatToString(k)
  }

  /**
   * save(): an order without a number draws random numbers in [1000, 9999] until one is not
   * used by another order; an order that has a number keeps it.
   */
  method AssignOrderNumber(current: string, taken: set<string>) returns (number: string)
    requires current == "" ==> exists k :: 1000 <= k <= 9999 && NatToString(k) !in taken
    ensures current != "" ==> number == current
    ensures current == "" ==> IsOrderNumber(number) && number !in taken
  {
    if current != "" {
      return current;
    }
    var k :| 1000 <= k <= 9999 && NatToString(k) !in taken;
    number := NatToString(k);
  }

  function NumbersUpTo(n: int): set<string>
  {
    set k | 1000 <= k <= n :: NatToString(k)
  }

  lemma {:induction false} NumbersUpToCount(n: int)
    requires n >= 999
    ensures |NumbersUpTo(n)| == n - 999
    decreases n
  {
    if n == 999 {
      NothingBelow();
    } else {
      NumbersUpToCount(n - 1);
      NumbersUpToStep(n);
    }
  }

  lemma NumbersUpToStep(n: int)
    requires n >= 1000
    ensures NumbersUpTo(n) == NumbersUpTo(n - 1) + {NatToString(n)}
    ensures NatToString(n) !in NumbersUpTo(n - 1)
  {
    var a, b := NumbersUpTo(n), NumbersUpTo(n - 1) + {NatToString(n)};
    forall s | s in a ensures s in b {
      var k :| 1000 <= k <= n && s == NatToString(k);
      if k < n {
        assert s in NumbersUpTo(n - 1);
      }
    }
    forall s | s in b ensures s in a {
      if s != NatToString(n) {
        var k :| 1000 <= k <= n - 1 && s == NatToString(k);
        assert s in a;
      }
    }
    assert a == b;
    if NatToString(n) in NumbersUpTo(n - 1) {
      var k :| 1000 <= k <= n - 1 && NatToString(n) == NatToString(k);
      NatToStringInjective(k, n);
    }
  }

  lemma NothingBelow()
    ensures NumbersUpTo(999) == {}
  {
    assert forall s :: s !in NumbersUpTo(999);
    NoStringIsEmpty(NumbersUpTo(999));
  }

  lemma NoStringIsEmpty(s: set<string>)
    requires forall x :: x !in s
    ensures s == {}
  {
    assert forall x :: x in s <==> x in {};
  }

  /**
   * As written, the drawing loop has no way out once every candidate is used: after 9000
   * orders each of the 9000 numbers is taken, no draw is free, and saving the next order
   * never returns. AssignOrderNumber models only the runs that end.
   */
  lemma FullTableHasNoFreeNumber(taken: set<string>)
    requires NumbersUpTo(9999) <= taken
    ensures |NumbersUpTo(9999)| == 9000
    ensures forall k :: 1000 <= k <= 9999 ==> NatToString(k) in taken
  {
    NumbersUpToCount(9999);
    forall k | 1000 <= k <= 9999
      ensures NatToString(k) in taken
    {
      assert NatToString(k) in NumbersUpTo(9999);
    }
  }

  /**
   * The evidently intended save(): the same draw while a number is free, and an error
   * instead of an endless loop once all 9000 are in use.
   */
  method AssignOrderNumberOrFail(current: string, taken: set<string>) returns (r: Result<string>)
    ensures current != "" ==> r == Ok(current)
    ensures current == "" && r.Err? ==> forall k :: 1000 <= k <= 9999 ==> NatToString(k) in taken
    ensures current == "" && r.Ok? ==> exists k :: 1000 <= k <= 9999 && NatToString(k) !in taken
    ensures current == "" && r.Ok? ==> IsOrderNumber(r.value) && r.value !in taken
  {
    if current != "" {
      return Ok(current);
    }
    if forall k :: 1000 <= k <= 9999 ==> NatToString(k) in taken {
      return Err("No free order number");
    }
    var number := AssignOrderNumber(current, taken);
    r := Ok(number);
  }

  /** While fewer than 9000 numbers are in use, a free one exists, so the drawing loop can end. */
  lemma FreeOrderNumberExists(taken: set<string>)
    requires |taken| < 9000
    ensures exists k :: 1000 <= k <= 9999 && NatToString(k) !in taken
  {
    NumbersUpToCount(9999);
    if forall k :: 1000 <= k <= 9999 ==> NatToString(k) in taken {
      assert NumbersUpTo(9999) <= taken;
      SubsetCard(NumbersUpTo(9999), taken);
      assert false;
    }
  }
}

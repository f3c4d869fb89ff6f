// The site pages (coffeeshop/views.py): the contact form and its validators, the manager's
// inbox of contact messages, and the popular products on the home page.
module ShopViews {
  import opened Wrappers
  import opened Text
  import opened AccountModels
  import opened Sorting
  import opened ProductViews

  // ---------------------------------------------------------------- popular products

  /** The active product with this id, if any (a lookup in the id map of the filtered query). */
  function ActiveById(products: seq<Product>, id: int): (r: Option<Product>)
    ensures r.Some? ==> r.value in products && r.value.isActive && r.value.id == id
    ensures r.None? ==> forall i :: 0 <= i < |products| ==> !(products[i].isActive && products[i].id == id)
  {
    if products == [] then None
    else if products[|products| - 1].isActive && products[|products| - 1].id == id then Some(products[|products| - 1])
    else ActiveById(products[..|products| - 1], id)
  }

  /** [id_map[pid] for pid in top_ids if pid in id_map]: the ranked ids that are active products, in rank order. */
  function RankedActive(topIds: seq<int>, products: seq<Product>): (r: seq<Product>)
    ensures |r| <= |topIds|
    ensures forall i :: 0 <= i < |r| ==> r[i].isActive && r[i] in products && r[i].id in topIds
  {
    if topIds == [] then []
    else
      var rest := RankedActive(topIds[1..], products);
      match ActiveById(products, topIds[0])
      case Some(p) => [p] + rest
      case None => rest
  }

  /** The position of x's first occurrence in s. */
  function Rank(s: seq<int>, x: int): (r: nat)
    requires x in s
    ensures r < |s| && s[r] == x
    ensures forall k :: 0 <= k < r ==> s[k] != x
  {
    if s[0] == x then 0 else 1 + Rank(s[1..], x)
  }

  /** No id is ranked twice (the ranking groups the sales by product). */
  predicate Distinct(s: seq<int>)
  {
    forall i, j :: 0 <= i < j < |s| ==> s[i] != s[j]
  }

  /** Products listed in strictly increasing rank. */
  predicate RankOrdered(topIds: seq<int>, r: seq<Product>)
    requires forall i :: 0 <= i < |r| ==> r[i].id in topIds
  {
    forall i, j :: 0 <= i < j < |r| ==> Rank(topIds, r[i].id) < Rank(topIds, r[j].id)
  }

  /** Below the head of a ranking without repeats, ranks shift by one. */
  lemma TailRank(topIds: seq<int>, x: int)
    requires Distinct(topIds) && topIds != [] && x in topIds[1..]
    ensures x != topIds[0] && Rank(topIds, x) == 1 + Rank(topIds[1..], x)
  {
    var m := Rank(topIds[1..], x);
    assert topIds[m + 1] == x;
  }

  lemma TailDistinct(s: seq<int>)
    requires Distinct(s) && s != []
    ensures Distinct(s[1..])
  {
    var tail := s[1..];
    forall i, j | 0 <= i < j < |tail| ensures tail[i] != tail[j] {
      assert tail[i] == s[i + 1] && tail[j] == s[j + 1];
    }
  }

  /** The popular products keep the sales-rank order. */
  lemma {:induction false} RankedActiveKeepsOrder(topIds: seq<int>, products: seq<Product>)
    requires Distinct(topIds)
    ensures RankOrdered(topIds, RankedActive(topIds, products))
  {
    if topIds != [] {
      var tail := topIds[1..];
      TailDistinct(topIds);
      RankedActiveKeepsOrder(tail, products);
      var rest := RankedActive(tail, products);
      var r := RankedActive(topIds, products);
      forall i, j | 0 <= i < j < |r|
        ensures Rank(topIds, r[i].id) < Rank(topIds, r[j].id)
      {
        RanksOfPair(topIds, products, i, j);
      }
    }
  }

  lemma RanksOfPair(topIds: seq<int>, products: seq<Product>, i: nat, j: nat)
    requires Distinct(topIds) && topIds != []
    requires RankOrdered(topIds[1..], RankedActive(topIds[1..], products))
    requires i < j < |RankedActive(topIds, products)|
    ensures Rank(topIds, RankedActive(topIds, products)[i].id) < Rank(topIds, RankedActive(topIds, products)[j].id)
  {
    var rest := RankedActive(topIds[1..], products);
    var r := RankedActive(topIds, products);
    var head := ActiveById(products, topIds[0]);
    if head.Some? {
      assert r == [head.value] + rest;
      if i == 0 {
        HeadRanksFirst(topIds, head.value, rest, r, j);
      } else {
        PairAfterHead(topIds, head.value, rest, r, i, j);
      }
    } else {
      assert r == rest;
      PairBelowHead(topIds, rest, i, j);
    }
  }

  /** The head's product ranks before every product of the tail's result. */
  lemma HeadRanksFirst(topIds: seq<int>, p: Product, rest: seq<Product>, r: seq<Product>, j: nat)
    requires Distinct(topIds) && topIds != [] && p.id == topIds[0]
    requires forall k :: 0 <= k < |rest| ==> rest[k].id in topIds[1..]
    requires r == [p] + rest && 0 < j < |r| && r[0].id in topIds && r[j].id in topIds
    ensures Rank(topIds, r[0].id) < Rank(topIds, r[j].id)
  {
    assert r[0] == p && r[j] == rest[j - 1];
    TailRank(topIds, rest[j - 1].id);
  }

  /** Two products after the head keep the tail's rank order. */
  lemma PairAfterHead(topIds: seq<int>, p: Product, rest: seq<Product>, r: seq<Product>, i: nat, j: nat)
    requires Distinct(topIds) && topIds != []
    requires forall k :: 0 <= k < |rest| ==> rest[k].id in topIds[1..]
    requires RankOrdered(topIds[1..], rest)
    requires r == [p] + rest && 0 < i < j < |r| && r[i].id in topIds && r[j].id in topIds
    ensures Rank(topIds, r[i].id) < Rank(topIds, r[j].id)
  {
    assert r[i] == rest[i - 1] && r[j] == rest[j - 1];
    PairBelowHead(topIds, rest, i - 1, j - 1);
  }

  /** Two entries of the tail's result keep their rank order in the whole ranking. */
  lemma PairBelowHead(topIds: seq<int>, rest: seq<Product>, i: nat, j: nat)
    requires Distinct(topIds) && topIds != []
    requires forall k :: 0 <= k < |rest| ==> rest[k].id in topIds[1..]
    requires RankOrdered(topIds[1..], rest)
    requires i < j < |rest|
    ensures rest[i].id in topIds && rest[j].id in topIds && Rank(topIds, rest[i].id) < Rank(topIds, rest[j].id)
  {
    ShiftedRanks(topIds, rest[i].id, rest[j].id);
  }

  /** Two ids below the head keep their rank order when the head is put back. */
  lemma ShiftedRanks(topIds: seq<int>, a: int, b: int)
    requires Distinct(topIds) && topIds != [] && a in topIds[1..] && b in topIds[1..]
    requires Rank(topIds[1..], a) < Rank(topIds[1..], b)
    ensures Rank(topIds, a) < Rank(topIds, b)
  {
    TailRank(topIds, a);
    TailRank(topIds, b);
  }

  /** Every active product whose id is ranked is shown. */
  lemma {:induction false} RankedActiveComplete(topIds: seq<int>, products: seq<Product>)
    requires ProductIdsUnique(products)
    ensures forall i :: 0 <= i < |products| && products[i].isActive && products[i].id in topIds ==>
      products[i] in RankedActive(topIds, products)
  {
    if topIds != [] {
      RankedActiveComplete(topIds[1..], products);
      forall i | 0 <= i < |products| && products[i].isActive && products[i].id == topIds[0]
        ensures products[i] in RankedActive(topIds, products)
      {
        var p := ActiveById(products, topIds[0]);
        var j :| 0 <= j < |products| && products[j] == p.value;
        assert products[j].id == products[i].id;
      }
    }
  }

  /**
   * home: with sales, the ranked ids (the best sellers by quantity in completed orders, at most
   * 20) that are active products, in rank order; without sales, the 20 newest active products.
   */
  function PopularProducts(topIds: seq<int>, products: seq<Product>): (r: seq<Product>)
    ensures forall i :: 0 <= i < |r| ==> r[i].isActive && r[i] in products
    ensures topIds != [] ==> r == RankedActive(topIds, products)
    ensures topIds == [] ==> |r| <= 20 && forall i, j :: 0 <= i < j < |r| ==> r[i].createdAt >= r[j].createdAt
    ensures topIds == [] && |ActiveProducts(products)| <= 20 ==>
      forall i :: 0 <= i < |products| && products[i].isActive ==> products[i] in r
    ensures topIds == [] ==> |r| == (if |ActiveProducts(products)| <= 20 then |ActiveProducts(products)| else 20)
    ensures topIds == [] ==>
      forall i, j :: 0 <= i < |products| && products[i].isActive && products[i] !in r && 0 <= j < |r| ==>
      products[i].createdAt <= r[j].createdAt
  {
    if topIds != [] then RankedActive(topIds, products)
    else
      NewestActive(products);
      NewestCutLength(products);
      NewestCutOrder(products);
      if |ActiveProducts(products)| <= 20 then NewestAllShown(products); TakePrefix(CatalogOrder(products, "newest"), 20)
      else TakePrefix(CatalogOrder(products, "newest"), 20)
  }

  /** The 20 newest active products: active products of the catalogue, newest first. */
  lemma NewestActive(products: seq<Product>)
    ensures forall i :: 0 <= i < |TakePrefix(CatalogOrder(products, "newest"), 20)| ==>
      TakePrefix(CatalogOrder(products, "newest"), 20)[i].isActive && TakePrefix(CatalogOrder(products, "newest"), 20)[i] in products
    ensures |TakePrefix(CatalogOrder(products, "newest"), 20)| <= 20
    ensures forall i, j :: 0 <= i < j < |TakePrefix(CatalogOrder(products, "newest"), 20)| ==>
      TakePrefix(CatalogOrder(products, "newest"), 20)[i].createdAt >= TakePrefix(CatalogOrder(products, "newest"), 20)[j].createdAt
  {
    assert "newest" !in ["price_asc", "price_desc", "rating"];
  }

  /** The newest-first cut takes min(20, active) products. */
  lemma NewestCutLength(products: seq<Product>)
    ensures |TakePrefix(CatalogOrder(products, "newest"), 20)| ==
      (if |ActiveProducts(products)| <= 20 then |ActiveProducts(products)| else 20)
  {
    var newest := CatalogOrder(products, "newest");
    assert |multiset(newest)| == |multiset(ActiveProducts(products))|;
  }

  /** Every active product the newest-first cut leaves out is no newer than any it shows. */
  lemma NewestCutOrder(products: seq<Product>)
    ensures var r := TakePrefix(CatalogOrder(products, "newest"), 20);
      forall i, j :: 0 <= i < |products| && products[i].isActive && products[i] !in r && 0 <= j < |r| ==>
      products[i].createdAt <= r[j].createdAt
  {
    assert "newest" !in ["price_asc", "price_desc", "rating"];
    CutBelow(CatalogOrder(products, "newest"), 20, products);
  }

  /**
   * In a newest-first list holding every active product, an active product past the cut is
   * no newer than any entry before it.
   */
  lemma CutBelow(s: seq<Product>, n: nat, products: seq<Product>)
    requires forall a, b :: 0 <= a < b < |s| ==> s[a].createdAt >= s[b].createdAt
    requires forall i :: 0 <= i < |products| && products[i].isActive ==> products[i] in s
    ensures var r := TakePrefix(s, n);
      forall i, j :: 0 <= i < |products| && products[i].isActive && products[i] !in r && 0 <= j < |r| ==>
      products[i].createdAt <= r[j].createdAt
  {
    var r := TakePrefix(s, n);
    forall i, j | 0 <= i < |products| && products[i].isActive && products[i] !in r && 0 <= j < |r|
      ensures products[i].createdAt <= r[j].createdAt
    {
      var k :| 0 <= k < |s| && s[k] == products[i];
      if k < |r| {
        assert false;
      }
      assert r[j] == s[j];
    }
  }

  /** When at most 20 products are active, the home page shows all of them. */
  lemma NewestAllShown(products: seq<Product>)
    requires |ActiveProducts(products)| <= 20
    ensures forall i :: 0 <= i < |products| && products[i].isActive ==> products[i] in TakePrefix(CatalogOrder(products, "newest"), 20)
  {
    var newest := CatalogOrder(products, "newest");
    assert |newest| == |ActiveProducts(products)| by {
      assert |multiset(newest)| == |multiset(ActiveProducts(products))|;
    }
    assert TakePrefix(newest, 20) == newest;
  }

  // ---------------------------------------------------------------- contact messages

  /** A contact message as stored. */
  datatype ContactMessage = ContactMessage(id: int, name: string, email: string, subject: string, message: string, isRead: bool)

  /** The posted contact form. */
  datatype ContactForm = ContactForm(name: string, email: string, subject: string, message: string)

  /** ContactForm.clean_name: stripped, at least 2 characters. */
  function CleanContactName(raw: string): (r: Result<string>)
    ensures r.Ok? <==> |Strip(raw)| >= 2
    ensures r.Ok? ==> r.value == Strip(raw)
    ensures Strip(raw) != "" && |Strip(raw)| < 2 ==> r == Err("Please enter your name (at least 2 characters)")
  {
    CleanMinLength(raw, 2, "Please enter your name (at least 2 characters)")
  }

  /** ContactForm.clean_message: stripped, at least 10 characters. */
  function CleanContactMessage(raw: string): (r: Result<string>)
    ensures r.Ok? <==> |Strip(raw)| >= 10
    ensures r.Ok? ==> r.value == Strip(raw)
    ensures Strip(raw) != "" && |Strip(raw)| < 10 ==> r == Err("Message must be at least 10 characters long")
  {
    CleanMinLength(raw, 10, "Message must be at least 10 characters long")
  }

  /**
   * The whole form: the name and message validators, a required e-mail address and an optional
   * subject, all stripped. The address syntax check of the e-mail field is not part of this model.
   */
  function CleanContactForm(f: ContactForm, id: int): (r: Option<ContactMessage>)
    ensures r.Some? <==> |Strip(f.name)| >= 2 && Strip(f.email) != "" && |Strip(f.message)| >= 10
    ensures r.Some? ==> r.value == ContactMessage(id, Strip(f.name), Strip(f.email), Strip(f.subject), Strip(f.message), false)
  {
    match (CleanContactName(f.name), CleanContactMessage(f.message))
    case (Ok(name), Ok(message)) =>
      if Strip(f.email) == "" then None
      else Some(ContactMessage(id, name, Strip(f.email), Strip(f.subject), message, false))
    case _ => None
  }

  /** The outcome of a contact or inbox view. */
  datatype Outcome = Done(message: string) | Denied(message: string) | Missing

  /** Message ids identify messages. */
  predicate MessageIdsUnique(messages: seq<ContactMessage>)
  {
    forall i, j :: 0 <= i < j < |messages| ==> messages[i].id != messages[j].id
  }

  /** The message with this id, if any. */
  function FindMessage(messages: seq<ContactMessage>, id: int): (r: Option<nat>)
    ensures r.Some? ==> r.value < |messages| && messages[r.value].id == id
    ensures r.None? ==> forall i :: 0 <= i < |messages| ==> messages[i].id != id
  {
    if messages == [] then None
    else if messages[|messages| - 1].id == id then Some(|messages| - 1)
    else FindMessage(messages[..|messages| - 1], id)
  }

  /** Storing a message whose id is new keeps message ids unique. */
  lemma AppendKeepsIdsUnique(messages: seq<ContactMessage>, m: ContactMessage)
    requires MessageIdsUnique(messages) && FindMessage(messages, m.id).None?
    ensures MessageIdsUnique(messages + [m])
  {
    assert forall i :: 0 <= i < |messages| ==> (messages + [m])[i] == messages[i];
  }

  /** The contact messages and the number of writes made to them. */
  class Inbox {
    var messages: seq<ContactMessage>
    var writes: nat

    ghost predicate Valid()
      reads this
    {
      MessageIdsUnique(messages)
    }

    constructor ()
      ensures Valid() && messages == [] && writes == 0
    {
      messages := [];
      writes := 0;
    }

    /** contacts (POST): a valid form is stored as an unread message; an invalid one stores nothing. */
    method Submit(f: ContactForm, id: int) returns (outcome: Outcome)
      requires Valid() && FindMessage(messages, id).None?
      modifies this
      ensures Valid()
      ensures match CleanContactForm(f, id)
        case Some(m) =>
          messages == old(messages) + [m] && writes == old(writes) + 1 &&
          outcome == Done("Your message has been sent! We will get back to you soon.")
        case None =>
          messages == old(messages) && writes == old(writes) && outcome == Denied("Please correct the errors below.")
    {
      var cleaned := CleanContactForm(f, id);
      if cleaned.None? {
        return Denied("Please correct the errors below.");
      }
      AppendKeepsIdsUnique(messages, cleaned.value);
      messages := messages + [cleaned.value];
      writes := writes + 1;
      outcome := Done("Your message has been sent! We will get back to you soon.");
    }

    /**
     * manager_contact_message_detail: managers only; opening a message marks it read, and an
     * already-read message is not written again.
     */
    method Open(viewer: User, id: int) returns (outcome: Outcome)
      requires Valid()
      modifies this
      ensures Valid()
      ensures !IsManager(viewer) ==> outcome == Denied("Access denied.") && messages == old(messages) && writes == old(writes)
      ensures IsManager(viewer) && FindMessage(old(messages), id).None? ==>
        outcome == Missing && messages == old(messages) && writes == old(writes)
      ensures IsManager(viewer) && FindMessage(old(messages), id).Some? ==>
        var k := FindMessage(old(messages), id).value;
        outcome == Done("") &&
        messages == old(messages)[k := old(messages)[k].(isRead := true)] &&
        writes == old(writes) + (if old(messages)[k].isRead then 0 else 1)
    {
      if !IsManager(viewer) {
        return Denied("Access denied.");
      }
      var k := FindMessage(messages, id);
      if k.None? {
        return Missing;
      }
      if !messages[k.value].isRead {
        messages := messages[k.value := messages[k.value].(isRead := true)];
        writes := writes + 1;
      }
      outcome := Done("");
    }

    /** manager_contact_message_delete: managers only; the message is removed. */
    method Delete(viewer: User, id: int) returns (outcome: Outcome)
      requires Valid()
      modifies this
      ensures Valid()
      ensures !IsManager(viewer) ==> outcome == Denied("Access denied.") && messages == old(messages)
      ensures IsManager(viewer) && FindMessage(old(messages), id).None? ==> outcome == Missing && messages == old(messages)
      ensures IsManager(viewer) && FindMessage(old(messages), id).Some? ==>
        var k := FindMessage(old(messages), id).value;
        outcome == Done("Message deleted.") && messages == old(messages)[..k] + old(messages)[k + 1..]
      ensures forall i :: 0 <= i < |messages| ==> messages[i].id != id || !IsManager(viewer)
    {
      if !IsManager(viewer) {
        return Denied("Access denied.");
      }
      var k := FindMessage(messages, id);
      if k.None? {
        return Missing;
      }
      var before := messages;
      messages := messages[..k.value] + messages[k.value + 1..];
      assert forall i :: 0 <= i < |messages| ==> messages[i] == (if i < k.value then before[i] else before[i + 1]);
      outcome := Done("Message deleted.");
    }
  }

  /** With unique ids, the lookup finds the one message with the id. */
  lemma FindMessageFinds(messages: seq<ContactMessage>, k: nat)
    requires MessageIdsUnique(messages) && k < |messages|
    ensures FindMessage(messages, messages[k].id) == Some(k)
  {
  }

  /** Opening a message twice writes it at most once, and both openings have the same outcome. */
  method OpenTwice(inbox: Inbox, viewer: User, id: int) returns (first: Outcome, second: Outcome)
    requires inbox.Valid() && IsManager(viewer)
    modifies inbox
    ensures inbox.writes <= old(inbox.writes) + 1
    ensures first == second
  {
    var k := FindMessage(inbox.messages, id);
    first := inbox.Open(viewer, id);
    if k.Some? {
      FindMessageFinds(inbox.messages, k.value);
    }
    second := inbox.Open(viewer, id);
  }
}

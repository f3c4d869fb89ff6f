// The catalogue views (products/views.py): unique slug generation, the catalog sort orders,
// the pagination query string, product activation, and the manager's edit and delete rules for
// countries, roast levels, bean types and weights. Prices are in cents, multipliers in hundredths.
module ProductViews {
  import opened Wrappers
  import opened Text
  import opened Sorting
  import opened ProductForms
  import opened Sets
  import OrderModels
  import OrderViews

  /**
   * A product as the catalogue views see it; the average rating is None without approved
   * reviews, and the roast level None when it was never set or its roast level was deleted.
   */
  datatype Product = Product(id: int, name: string, slug: string, basePrice: int, createdAt: int,
                             avgRating: Option<real>, isActive: bool, roastLevel: Option<int>)

  // ---------------------------------------------------------------- slugs

  /** `slugify(name) or 'product'`; slugify itself is a parameter of the model. */
  function BaseSlug(slugified: string): (r: string)
    ensures r != ""
    ensures slugified != "" ==> r == slugified
  {
    if slugified == "" then "product" else slugified
  }

  /** The candidates in the order they are tried: the base slug, then base-1, base-2, ... */
  function Candidate(base: string, k: nat): string
  {
    if k == 0 then base else base + "-" + NatToString(k)
  }

  /** Distinct counters give distinct candidates, so the loop never tries a slug twice. */
  lemma CandidateInjective(base: string, i: nat, j: nat)
    requires Candidate(base, i) == Candidate(base, j)
    ensures i == j
  {
    if i != 0 && j != 0 {
      assert NatToString(i) == Candidate(base, i)[|base| + 1..];
      assert NatToString(j) == Candidate(base, j)[|base| + 1..];
      NatToStringInjective(i, j);
    }
  }

  /** The first n candidates. */
  function CandidatesBelow(base: string, n: nat): set<string>
  {
    set i | 0 <= i < n :: Candidate(base, i)
  }

  /** The first n candidates are n distinct slugs. */
  lemma {:induction false} CandidatesBelowCount(base: string, n: nat)
    ensures |CandidatesBelow(base, n)| == n
  {
    if n == 0 {
      assert forall s :: s !in CandidatesBelow(base, 0);
      assert CandidatesBelow(base, 0) == {};
    } else {
      CandidatesBelowCount(base, n - 1);
      var a, b := CandidatesBelow(base, n), CandidatesBelow(base, n - 1) + {Candidate(base, n - 1)};
      forall s | s in a ensures s in b {
        var i :| 0 <= i < n && s == Candidate(base, i);
        if i < n - 1 {
          assert s in CandidatesBelow(base, n - 1);
        }
      }
      assert a == b;
      if Candidate(base, n - 1) in CandidatesBelow(base, n - 1) {
        var i :| 0 <= i < n - 1 && Candidate(base, n - 1) == Candidate(base, i);
        CandidateInjective(base, i, n - 1);
      }
    }
  }

  /** A set holding the first n candidates has at least n slugs, so the search loop ends. */
  lemma TakenBound(base: string, n: nat, taken: set<string>)
    requires forall i :: 0 <= i < n ==> Candidate(base, i) in taken
    ensures |taken| >= n
  {
    CandidatesBelowCount(base, n);
    SubsetCard(CandidatesBelow(base, n), taken);
  }

  /** The slugs of every product except `excludePk`. */
  function OtherSlugs(products: seq<Product>, excludePk: Option<int>): set<string>
  {
    set i | 0 <= i < |products| && (excludePk.None? || products[i].id != excludePk.value) :: products[i].slug
  }

  /** `slug` is the first candidate that is not taken. */
  ghost predicate FirstFree(base: string, taken: set<string>, slug: string)
  {
    exists k: nat :: slug == Candidate(base, k) && slug !in taken &&
      forall i :: 0 <= i < k ==> Candidate(base, i) in taken
  }

  /** There is only one first free candidate. */
  lemma FirstFreeUnique(base: string, taken: set<string>, a: string, b: string)
    requires FirstFree(base, taken, a) && FirstFree(base, taken, b)
    ensures a == b
  {
    var ka: nat :| a == Candidate(base, ka) && a !in taken && forall i :: 0 <= i < ka ==> Candidate(base, i) in taken;
    var kb: nat :| b == Candidate(base, kb) && b !in taken && forall i :: 0 <= i < kb ==> Candidate(base, i) in taken;
    if kb < ka {
      assert Candidate(base, kb) in taken;
    }
  }

  /**
   * generate_unique_slug: the base slug when no other product uses it, otherwise "base-k" for the
   * smallest k >= 1 that no other product uses.
   */
  method GenerateUniqueSlug(name: string, slugify: string -> string, products: seq<Product>, excludePk: Option<int>)
    returns (slug: string)
    ensures slug !in OtherSlugs(products, excludePk)
    ensures FirstFree(BaseSlug(slugify(name)), OtherSlugs(products, excludePk), slug)
  {
    slug := FirstFreeSlug(BaseSlug(slugify(name)), OtherSlugs(products, excludePk));
  }

  /** The while loop of generate_unique_slug: try base, base-1, base-2, ... until one is free. */
  method FirstFreeSlug(base: string, existing: set<string>) returns (slug: string)
    ensures slug !in existing
    ensures FirstFree(base, existing, slug)
  {
    slug := base;
    var counter: nat := 1;
    while slug in existing
      invariant counter >= 1
      invariant slug == Candidate(base, counter - 1)
      invariant forall i :: 0 <= i < counter - 1 ==> Candidate(base, i) in existing
      decreases |existing| - (counter - 1)
    {
      TakenBound(base, counter, existing);
      slug := base + "-" + NatToString(counter);
      counter := counter + 1;
    }
  }

  /** No two products share a slug (the unique slug column). */
  predicate SlugsUnique(products: seq<Product>)
  {
    forall i, j :: 0 <= i < j < |products| ==> products[i].slug != products[j].slug
  }

  /** No two products share an id. */
  predicate ProductIdsUnique(products: seq<Product>)
  {
    forall i, j :: 0 <= i < j < |products| ==> products[i].id != products[j].id
  }

  /** A product whose slug no other product uses can be added or replace its own row, keeping slugs unique. */
  lemma FreeSlugKeepsSlugsUnique(products: seq<Product>, k: int, p: Product)
    requires SlugsUnique(products) && ProductIdsUnique(products)
    requires -1 <= k < |products|
    requires k >= 0 ==> products[k].id == p.id
    requires p.slug !in OtherSlugs(products, if k >= 0 then Some(p.id) else None)
    ensures k < 0 ==> SlugsUnique(products + [p])
    ensures k >= 0 ==> SlugsUnique(products[k := p])
  {
    var excl := if k >= 0 then Some(p.id) else None;
    var r := if k < 0 then products + [p] else products[k := p];
    forall i, j | 0 <= i < j < |r|
      ensures r[i].slug != r[j].slug
    {
      if k < 0 && j == |products| {
        assert products[i].slug in OtherSlugs(products, excl);
      } else if k >= 0 && i == k {
        assert products[j].slug in OtherSlugs(products, excl);
      } else if k >= 0 && j == k {
        assert products[i].slug in OtherSlugs(products, excl);
      }
    }
  }

  /** The product table of the manager views. */
  class Catalog {
    var products: seq<Product>

    predicate Valid()
      reads this
    {
      SlugsUnique(products) && ProductIdsUnique(products)
    }

    constructor ()
      ensures products == [] && Valid()
    {
      products := [];
    }

    /**
     * manager_product_create: a posted slug that another product already uses fails the form's
     * uniqueness check and nothing is saved (None); a product saved without a slug gets a
     * generated one; any other posted slug is kept.
     */
    method CreateProduct(p: Product, slugify: string -> string) returns (saved: Option<Product>)
      requires Valid()
      requires forall i :: 0 <= i < |products| ==> products[i].id != p.id
      modifies this
      ensures p.slug != "" && p.slug in OtherSlugs(old(products), None) ==> saved == None
      ensures p.slug != "" && p.slug !in OtherSlugs(old(products), None) ==> saved == Some(p)
      ensures p.slug == "" ==>
        (saved.Some? && saved.value == p.(slug := saved.value.slug) &&
         FirstFree(BaseSlug(slugify(p.name)), OtherSlugs(old(products), None), saved.value.slug))
      ensures saved.None? ==> products == old(products)
      ensures saved.Some? ==> products == old(products) + [saved.value]
      ensures Valid()
    {
      if p.slug != "" && p.slug in OtherSlugs(products, None) {
        return None;
      }
      var q := p;
      if p.slug == "" {
        var slug := GenerateUniqueSlug(p.name, slugify, products, None);
        q := p.(slug := slug);
      }
      FreeSlugKeepsSlugsUnique(products, -1, q);
      products := products + [q];
      saved := Some(q);
    }

    /**
     * manager_product_edit: as creation, but the product's own row does not count as taking a
     * slug, and a refused form leaves the row as it was.
     */
    method EditProduct(k: int, p: Product, slugify: string -> string) returns (saved: Option<Product>)
      requires Valid()
      requires 0 <= k < |products| && products[k].id == p.id
      modifies this
      ensures p.slug != "" && p.slug in OtherSlugs(old(products), Some(p.id)) ==> saved == None
      ensures p.slug != "" && p.slug !in OtherSlugs(old(products), Some(p.id)) ==> saved == Some(p)
      ensures p.slug == "" ==>
        (saved.Some? && saved.value == p.(slug := saved.value.slug) &&
         FirstFree(BaseSlug(slugify(p.name)), OtherSlugs(old(products), Some(p.id)), saved.value.slug))
      ensures saved.None? ==> products == old(products)
      ensures saved.Some? ==> products == old(products)[k := saved.value]
      ensures Valid()
    {
      if p.slug != "" && p.slug in OtherSlugs(products, Some(p.id)) {
        return None;
      }
      var q := p;
      if p.slug == "" {
        var slug := GenerateUniqueSlug(p.name, slugify, products, Some(p.id));
        q := p.(slug := slug);
      }
      FreeSlugKeepsSlugsUnique(products, k, q);
      products := products[k := q];
      saved := Some(q);
    }

    /** manager_product_toggle: flips the product's active flag and nothing else. */
    method ToggleActive(k: int)
      requires Valid()
      requires 0 <= k < |products|
      modifies this
      ensures products == old(products)[k := old(products)[k].(isActive := !old(products)[k].isActive)]
      ensures Valid()
    {
      products := products[k := products[k].(isActive := !products[k].isActive)];
      assert forall i :: 0 <= i < |products| ==> products[i].slug == old(products)[i].slug && products[i].id == old(products)[i].id;
    }
  }

  /**
   * on_delete=SET_NULL on Product.roast_level: deleting a roast level leaves no product pointing
   * at it, and changes nothing else about any product.
   */
  function ClearRoast(products: seq<Product>, roast: int): (r: seq<Product>)
    ensures |r| == |products|
    ensures forall i :: 0 <= i < |r| ==> r[i].roastLevel != Some(roast)
    ensures forall i :: 0 <= i < |r| ==> r[i].(roastLevel := products[i].roastLevel) == products[i]
    ensures forall i :: 0 <= i < |r| && products[i].roastLevel != Some(roast) ==> r[i] == products[i]
  {
    seq(|products|, i requires 0 <= i < |products| =>
      if products[i].roastLevel == Some(roast) then products[i].(roastLevel := None) else products[i])
  }

  // ---------------------------------------------------------------- catalog order

  /** The rating key of the 'rating' order: a product without a rating sorts below every rated one. */
  function RatingKey(p: Product): real
  {
    match p.avgRating
    case None => -1.0
    case Some(r) => r
  }

  /** The sort key for each `sort` choice, largest first. */
  function SortKey(sort: string): Product -> real
  {
    if sort == "price_asc" then (p: Product) => -(p.basePrice as real)
    else if sort == "price_desc" then (p: Product) => p.basePrice as real
    else if sort == "rating" then RatingKey
    else (p: Product) => p.createdAt as real
  }

  /** The active products (filter(is_active=True)), in their stored order. */
  function ActiveProducts(products: seq<Product>): (r: seq<Product>)
    ensures forall i :: 0 <= i < |r| ==> r[i].isActive && r[i] in products
    ensures multiset(r) <= multiset(products)
    ensures forall i :: 0 <= i < |products| && products[i].isActive ==> products[i] in r
  {
    if products == [] then []
    else
      var init := ActiveProducts(products[..|products| - 1]);
      var last := products[|products| - 1];
      assert products == products[..|products| - 1] + [last];
      if last.isActive then init + [last] else init
  }

  /**
   * The catalog listing: the active products, cheapest first for 'price_asc', dearest first for
   * 'price_desc', best rated first with unrated ones last for 'rating', and newest first for
   * anything else.
   */
  function CatalogOrder(products: seq<Product>, sort: string): (r: seq<Product>)
    ensures multiset(r) == multiset(ActiveProducts(products))
    ensures forall i :: 0 <= i < |r| ==> r[i].isActive && r[i] in products
    ensures forall i :: 0 <= i < |products| && products[i].isActive ==> products[i] in r
    ensures sort == "price_asc" ==> forall i, j :: 0 <= i < j < |r| ==> r[i].basePrice <= r[j].basePrice
    ensures sort == "price_desc" ==> forall i, j :: 0 <= i < j < |r| ==> r[i].basePrice >= r[j].basePrice
    ensures sort == "rating" ==> forall i, j :: 0 <= i < j < |r| && r[j].avgRating.Some? && r[j].avgRating.value >= 0.0 ==>
      r[i].avgRating.Some? && r[i].avgRating.value >= r[j].avgRating.value
    ensures sort !in ["price_asc", "price_desc", "rating"] ==> forall i, j :: 0 <= i < j < |r| ==> r[i].createdAt >= r[j].createdAt
  {
    var active := ActiveProducts(products);
    var r := SortDescBy(active, SortKey(sort));
    SameElements(r, active);
    SameElements(active, r);
    r
  }

  // ---------------------------------------------------------------- query string

  /** The request's query parameters with every 'page' entry removed (del query_params['page']). */
  function WithoutPage(params: seq<(string, string)>): (r: seq<(string, string)>)
    ensures forall i :: 0 <= i < |r| ==> r[i].0 != "page"
    ensures forall i :: 0 <= i < |r| ==> r[i] in params
    ensures forall i :: 0 <= i < |params| && params[i].0 != "page" ==> params[i] in r
    ensures |r| <= |params|
  {
    if params == [] then []
    else
      var init := WithoutPage(params[..|params| - 1]);
      var last := params[|params| - 1];
      assert params == params[..|params| - 1] + [last];
      if last.0 == "page" then init else init + [last]
  }

  /** Without a 'page' entry nothing changes, so stripping twice is stripping once. */
  lemma WithoutPageIdempotent(params: seq<(string, string)>)
    ensures (forall i :: 0 <= i < |params| ==> params[i].0 != "page") ==> WithoutPage(params) == params
    ensures WithoutPage(WithoutPage(params)) == WithoutPage(params)
  {
    if forall i :: 0 <= i < |params| ==> params[i].0 != "page" {
      NoPageUnchanged(params);
    }
    NoPageUnchanged(WithoutPage(params));
  }

  lemma {:induction false} NoPageUnchanged(params: seq<(string, string)>)
    requires forall i :: 0 <= i < |params| ==> params[i].0 != "page"
    ensures WithoutPage(params) == params
  {
    if params != [] {
      var init := params[..|params| - 1];
      var last := params[|params| - 1];
      assert params == init + [last];
      NoPageUnchanged(init);
      KeptEntry(init, last);
    }
  }

  /** An entry other than 'page' is kept at the end. */
  lemma KeptEntry(init: seq<(string, string)>, last: (string, string))
    requires last.0 != "page"
    ensures WithoutPage(init + [last]) == WithoutPage(init) + [last]
  {
    assert (init + [last])[..|init|] == init;
  }

  // ---------------------------------------------------------------- reference data

  /** What a manager edit or delete did. */
  datatype EditOutcome = Saved | Refused(message: string) | NotFound

  /** The first row with this id (get_object_or_404). */
  function FindRow(rows: seq<NamedRow>, id: int): (r: Option<nat>)
    ensures r.Some? ==> r.value < |rows| && rows[r.value].id == id
    ensures r.None? ==> forall k :: 0 <= k < |rows| ==> rows[k].id != id
  {
    if rows == [] then None
    else if rows[0].id == id then Some(0)
    else match FindRow(rows[1..], id)
      case None => None
      case Some(k) => Some(k + 1)
  }

  predicate RowIdsUnique(rows: seq<NamedRow>)
  {
    forall i, j :: 0 <= i < j < |rows| ==> rows[i].id != rows[j].id
  }

  /** Renaming a row to a name that no other row has ignoring case keeps the names unique. */
  lemma RenameKeepsNamesUnique(rows: seq<NamedRow>, k: int, name: string)
    requires NamesUnique(rows) && RowIdsUnique(rows)
    requires 0 <= k < |rows|
    requires !NameTaken(rows, name, Some(rows[k].id))
    ensures NamesUnique(rows[k := NamedRow(rows[k].id, name)])
  {
    var r := rows[k := NamedRow(rows[k].id, name)];
    forall i, j | 0 <= i < j < |r|
      ensures !EqualsIgnoreCase(r[i].name, r[j].name)
    {
      if i == k {
        assert rows[j].id != rows[k].id;
      } else if j == k {
        assert rows[i].id != rows[k].id;
      }
    }
  }

  /** Removing a row keeps ids and names unique. */
  lemma RemoveKeepsUnique(rows: seq<NamedRow>, k: int)
    requires NamesUnique(rows) && RowIdsUnique(rows)
    requires 0 <= k < |rows|
    ensures NamesUnique(rows[..k] + rows[k + 1..]) && RowIdsUnique(rows[..k] + rows[k + 1..])
  {
    var r := rows[..k] + rows[k + 1..];
    assert forall i :: 0 <= i < |r| ==> r[i] == rows[if i < k then i else i + 1];
  }

  /**
   * The countries, roast levels or bean types of manager_countries, manager_roast_levels and
   * manager_bean_types; bean types also carry a price multiplier, kept by id.
   */
  class ReferenceTable {
    const kind: RefKind
    var rows: seq<NamedRow>
    var multipliers: map<int, int>

    predicate Valid()
      reads this
    {
      RowIdsUnique(rows) && NamesUnique(rows)
    }

    constructor (kind: RefKind)
      ensures this.kind == kind && rows == [] && multipliers == map[] && Valid()
    {
      this.kind := kind;
      rows := [];
      multipliers := map[];
    }

    /**
     * action 'create': the form's clean_name decides; a bean type is stored with the multiplier
     * given. The database picks a fresh id.
     */
    method Create(raw: string, id: int, multiplier: int) returns (r: Result<string>)
      requires Valid()
      requires FindRow(rows, id).None?
      modifies this
      ensures r == CleanName(old(rows), raw, None, kind)
      ensures r.Ok? ==> (rows == old(rows) + [NamedRow(id, r.value)] &&
        multipliers == (if kind == BeanTypeRef then old(multipliers)[id := multiplier] else old(multipliers)))
      ensures r.Err? ==> rows == old(rows) && multipliers == old(multipliers)
      ensures Valid()
    {
      r := CleanName(rows, raw, None, kind);
      if r.Ok? {
        CreateKeepsNamesUnique(rows, raw, id, kind);
        rows := rows + [NamedRow(id, r.value)];
        if kind == BeanTypeRef {
          multipliers := multipliers[id := multiplier];
        }
      }
    }

    /**
     * action 'edit': the stripped new name must be non-empty and must not match another row's
     * name ignoring case; a bean type's multiplier is replaced when one is given, and an
     * unparsable one cancels the whole edit.
     */
    method Edit(itemId: int, rawName: string, multiplier: Field) returns (outcome: EditOutcome)
      requires Valid()
      requires kind != BeanTypeRef ==> multiplier.Blank?
      modifies this
      ensures FindRow(old(rows), itemId).None? ==> outcome == NotFound
      ensures FindRow(old(rows), itemId).Some? && Strip(rawName) == "" ==> outcome == Refused("Name cannot be empty")
      ensures FindRow(old(rows), itemId).Some? && Strip(rawName) != "" && NameTaken(old(rows), Strip(rawName), Some(itemId)) ==>
        outcome == Refused(AlreadyExists(kind, Strip(rawName)))
      ensures FindRow(old(rows), itemId).Some? && Strip(rawName) != "" && !NameTaken(old(rows), Strip(rawName), Some(itemId)) ==>
        outcome == (if multiplier.Unparsable? then Refused("Invalid multiplier value") else Saved)
      ensures outcome.Saved? ==> (rows == old(rows)[FindRow(old(rows), itemId).value := NamedRow(itemId, Strip(rawName))] &&
        multipliers == (if multiplier.Parsed? then old(multipliers)[itemId := multiplier.value] else old(multipliers)))
      ensures !outcome.Saved? ==> rows == old(rows) && multipliers == old(multipliers)
      ensures Valid()
    {
      var found := FindRow(rows, itemId);
      if found.None? {
        return NotFound;
      }
      var k := found.value;
      var name := Strip(rawName);
      if name == "" {
        outcome := Refused("Name cannot be empty");
      } else if NameTaken(rows, name, Some(itemId)) {
        outcome := Refused(AlreadyExists(kind, name));
      } else if multiplier.Unparsable? {
        outcome := Refused("Invalid multiplier value");
      } else {
        RenameKeepsNamesUnique(rows, k, name);
        assert forall i :: 0 <= i < |rows| ==> rows[k := NamedRow(itemId, name)][i].id == rows[i].id;
        rows := rows[k := NamedRow(itemId, name)];
        if multiplier.Parsed? {
          multipliers := multipliers[itemId := multiplier.value];
        }
        outcome := Saved;
      }
    }

    /**
     * action 'delete': the row goes; a missing row is a 404. The deletion cascades: a roast
     * level's products lose their roast level, and a bean type's cart lines are deleted from
     * every cart.
     */
    method Delete(itemId: int, catalog: Catalog, carts: set<OrderViews.Cart>) returns (outcome: EditOutcome)
      requires Valid() && catalog.Valid()
      modifies this, catalog, carts
      ensures FindRow(old(rows), itemId).None? ==> outcome == NotFound && rows == old(rows)
      ensures FindRow(old(rows), itemId).Some? ==> (outcome == Saved &&
        rows == old(rows)[..FindRow(old(rows), itemId).value] + old(rows)[FindRow(old(rows), itemId).value + 1..])
      ensures multipliers == old(multipliers)
      ensures catalog.products ==
        if FindRow(old(rows), itemId).Some? && kind == RoastLevelRef then ClearRoast(old(catalog.products), itemId)
        else old(catalog.products)
      ensures forall c :: c in carts ==>
        (c.items == if FindRow(old(rows), itemId).Some? && kind == BeanTypeRef
                    then OrderModels.DropLinesUsing(old(c.items), OrderModels.BeanTypeChoice(itemId))
                    else old(c.items))
      ensures forall c :: c in carts && old(c.Valid()) ==> c.Valid()
      ensures Valid() && catalog.Valid()
    {
      var found := FindRow(rows, itemId);
      if found.None? {
        return NotFound;
      }
      RemoveKeepsUnique(rows, found.value);
      rows := rows[..found.value] + rows[found.value + 1..];
      if kind == RoastLevelRef {
        catalog.products := ClearRoast(catalog.products, itemId);
      } else if kind == BeanTypeRef {
        OrderViews.DropLinesFromCarts(carts, OrderModels.BeanTypeChoice(itemId));
      }
      outcome := Saved;
    }
  }

  // ---------------------------------------------------------------- weights

  function FindWeight(rows: seq<WeightRow>, id: int): (r: Option<nat>)
    ensures r.Some? ==> r.value < |rows| && rows[r.value].id == id
    ensures r.None? ==> forall k :: 0 <= k < |rows| ==> rows[k].id != id
  {
    if rows == [] then None
    else if rows[0].id == id then Some(0)
    else match FindWeight(rows[1..], id)
      case None => None
      case Some(k) => Some(k + 1)
  }

  /** No two weights share an id or a number of grams. */
  predicate WeightsUnique(rows: seq<WeightRow>)
  {
    forall i, j :: 0 <= i < j < |rows| ==> rows[i].id != rows[j].id && rows[i].grams != rows[j].grams
  }

  /** The rows with 100 grams. */
  predicate KeepsBaseWeight(before: seq<WeightRow>, after: seq<WeightRow>)
  {
    forall i :: 0 <= i < |before| && before[i].grams == BaseGrams ==> before[i] in after
  }

  /** Removing a row other than the 100 g one keeps the weights unique and keeps the 100 g row. */
  lemma RemoveWeightKeeps(rows: seq<WeightRow>, k: int)
    requires WeightsUnique(rows) && 0 <= k < |rows| && rows[k].grams != BaseGrams
    ensures WeightsUnique(rows[..k] + rows[k + 1..])
    ensures KeepsBaseWeight(rows, rows[..k] + rows[k + 1..])
  {
    var after := rows[..k] + rows[k + 1..];
    assert forall i :: 0 <= i < |after| ==> after[i] == rows[if i < k then i else i + 1];
    assert forall i :: 0 <= i < |rows| && i != k ==> rows[i] == after[if i < k then i else i - 1];
  }

  /** The weight options of manager_weights. */
  class WeightTable {
    var rows: seq<WeightRow>

    predicate Valid()
      reads this
    {
      WeightsUnique(rows)
    }

    constructor ()
      ensures rows == [] && Valid()
    {
      rows := [];
    }

    /** action 'create': the form's clean_grams decides. */
    method Create(grams: int, multiplier: int, id: int) returns (r: Result<int>)
      requires Valid()
      requires FindWeight(rows, id).None?
      modifies this
      ensures r == CleanGrams(old(rows), grams, None)
      ensures r.Ok? ==> rows == old(rows) + [WeightRow(id, grams, multiplier)]
      ensures r.Err? ==> rows == old(rows)
      ensures Valid() && KeepsBaseWeight(old(rows), rows)
    {
      r := CleanGrams(rows, grams, None);
      if r.Ok? {
        rows := rows + [WeightRow(id, grams, multiplier)];
      }
    }

    /**
     * action 'edit': the 100 g weight is never edited; otherwise the grams must be given, must
     * be an integer and must not be another weight's, and an unparsable multiplier cancels the
     * edit.
     */
    method Edit(itemId: int, grams: Field, multiplier: Field) returns (outcome: EditOutcome)
      requires Valid()
      modifies this
      ensures FindWeight(old(rows), itemId).None? ==> outcome == NotFound
      ensures FindWeight(old(rows), itemId).Some? ==>
        var k := FindWeight(old(rows), itemId).value;
        outcome == (
          if old(rows)[k].grams == BaseGrams then Refused("100g is the base weight and cannot be edited")
          else if grams.Blank? then Refused("Grams cannot be empty")
          else if grams.Unparsable? then Refused("Invalid grams value")
          else if CleanGrams(old(rows), grams.value, Some(itemId)).Err? then Refused(CleanGrams(old(rows), grams.value, Some(itemId)).error)
          else if multiplier.Unparsable? then Refused("Invalid multiplier value")
          else Saved)
      ensures outcome.Saved? ==>
        var k := FindWeight(old(rows), itemId).value;
        rows == old(rows)[k := WeightRow(itemId, grams.value,
                                         if multiplier.Parsed? then multiplier.value else old(rows)[k].priceMultiplier)]
      ensures !outcome.Saved? ==> rows == old(rows)
      ensures Valid() && KeepsBaseWeight(old(rows), rows)
    {
      var found := FindWeight(rows, itemId);
      if found.None? {
        return NotFound;
      }
      var k := found.value;
      if rows[k].grams == BaseGrams {
        return Refused("100g is the base weight and cannot be edited");
      }
      match grams {
        case Blank =>
          outcome := Refused("Grams cannot be empty");
        case Unparsable =>
          outcome := Refused("Invalid grams value");
        case Parsed(g) =>
          var clean := CleanGrams(rows, g, Some(itemId));
          if clean.Err? {
            outcome := Refused(clean.error);
          } else if multiplier.Unparsable? {
            outcome := Refused("Invalid multiplier value");
          } else {
            var m := if multiplier.Parsed? then multiplier.value else rows[k].priceMultiplier;
            ghost var before := rows;
            rows := rows[k := WeightRow(itemId, g, m)];
            assert forall i :: 0 <= i < |before| && i != k ==> rows[i] == before[i] && before[i].id != itemId;
            assert forall i :: 0 <= i < |before| && before[i].grams == BaseGrams ==> i != k;
            outcome := Saved;
          }
      }
    }

    /**
     * action 'delete': the 100 g weight is never deleted. Deleting any other weight cascades to
     * the cart lines that use it, in every cart.
     */
    method Delete(itemId: int, carts: set<OrderViews.Cart>) returns (outcome: EditOutcome)
      requires Valid()
      modifies this, carts
      ensures FindWeight(old(rows), itemId).None? ==> outcome == NotFound && rows == old(rows)
      ensures FindWeight(old(rows), itemId).Some? && old(rows)[FindWeight(old(rows), itemId).value].grams == BaseGrams ==>
        outcome == Refused("100g is the base weight and cannot be deleted") && rows == old(rows)
      ensures FindWeight(old(rows), itemId).Some? && old(rows)[FindWeight(old(rows), itemId).value].grams != BaseGrams ==>
        outcome == Saved &&
        rows == old(rows)[..FindWeight(old(rows), itemId).value] + old(rows)[FindWeight(old(rows), itemId).value + 1..]
      ensures forall c :: c in carts ==>
        (c.items == if outcome == Saved then OrderModels.DropLinesUsing(old(c.items), OrderModels.WeightChoice(itemId))
                    else old(c.items))
      ensures forall c :: c in carts && old(c.Valid()) ==> c.Valid()
      ensures Valid() && KeepsBaseWeight(old(rows), rows)
    {
      var found := FindWeight(rows, itemId);
      if found.None? {
        return NotFound;
      }
      var k := found.value;
      if rows[k].grams == BaseGrams {
        return Refused("100g is the base weight and cannot be deleted");
      }
      RemoveWeightKeeps(rows, k);
      rows := rows[..k] + rows[k + 1..];
      OrderViews.DropLinesFromCarts(carts, OrderModels.WeightChoice(itemId));
      outcome := Saved;
    }
  }
}

// The hybrid recommendation engine (recommendations/services.py): the user's preference profile,
// content, collaborative and popularity scores, the ranked recommendation list, interaction
// recording and the batch of pairwise product similarities.
module Recommendations {
  import opened Wrappers
  import opened Arith
  import opened RealMath
  import opened Sorting
  import opened RecommendationModels

  /** An active catalog product with the attributes and statistics the engine reads. */
  datatype Product = Product(
    id: int,
    countries: set<int>,
    roastLevel: Option<int>,
    beanTypes: set<int>,
    basePrice: real,
    purchaseCount: nat,
    avgRating: Option<real>,
    reviewCount: nat)

  /** One of the user's interaction rows together with its product. */
  datatype Event = Event(interaction: Interaction, product: Product)

  /**
   * The user profile: preferred countries, roast levels and bean types, the weighted price
   * sum and weight total, the products interacted with, the decayed score per product (an
   * ordered dictionary) and the average preferred price.
   */
  datatype Profile = Profile(
    countries: set<int>,
    roastLevels: set<int>,
    beanTypes: set<int>,
    priceSum: real,
    priceCount: real,
    interacted: set<int>,
    scores: seq<(int, real)>,
    avgPrice: real)

  const SecondsPerDay := 86400

  // ---------------------------------------------------------------- user_profile

  /** Whole days since the interaction (timedelta.days floors). */
  function DaysAgo(now: int, last: int): int
  {
    (now - last) / SecondsPerDay
  }

  /** The interaction's weighted score decayed by exp(-rate * days ago). */
  function EventWeight(e: Event, rate: real, now: int, exp: real -> real): (w: real)
    requires ExpLaws(exp)
    ensures w >= 0.0
    ensures e.interaction.interactionCount > 0 ==> w > 0.0
  {
    WeightedScore(e.interaction) * exp(-rate * DaysAgo(now, e.interaction.lastInteraction) as real)
  }

  function Keys(scores: seq<(int, real)>): set<int>
  {
    set i | 0 <= i < |scores| :: scores[i].0
  }

  predicate DistinctKeys(scores: seq<(int, real)>)
  {
    forall i, j :: 0 <= i < j < |scores| ==> scores[i].0 != scores[j].0
  }

  /** interaction_scores[id] += w on an insertion-ordered dictionary. */
  function AddScore(scores: seq<(int, real)>, id: int, w: real): (r: seq<(int, real)>)
    requires DistinctKeys(scores)
    ensures DistinctKeys(r)
    ensures Keys(r) == Keys(scores) + {id}
    ensures id in Keys(scores) ==> |r| == |scores|
    ensures id !in Keys(scores) ==> r == scores + [(id, w)]
    ensures forall i :: 0 <= i < |scores| ==>
      r[i] == if scores[i].0 == id then (id, scores[i].1 + w) else scores[i]
  {
    if i :| 0 <= i < |scores| && scores[i].0 == id then
      var r := scores[i := (id, scores[i].1 + w)];
      assert Keys(r) == Keys(scores) by {
        assert forall k :: 0 <= k < |r| ==> r[k].0 == scores[k].0;
      }
      r
    else
      var r := scores + [(id, w)];
      assert Keys(r) == Keys(scores) + {id} by {
        assert forall k :: 0 <= k < |scores| ==> r[k].0 == scores[k].0;
        assert r[|scores|].0 == id;
      }
      r
  }

  const EmptyProfile := Profile({}, {}, {}, 0.0, 0.0, {}, [], 0.0)

  /** The preferences and totals gathered from the first |events| interactions. */
  function Gather(events: seq<Event>, rate: real, now: int, exp: real -> real): (pr: Profile)
    requires ExpLaws(exp)
    ensures DistinctKeys(pr.scores)
  {
    if events == [] then EmptyProfile
    else
      var e := events[|events| - 1];
      Step(Gather(events[..|events| - 1], rate, now, exp), e.product, EventWeight(e, rate, now, exp))
  }

  /** One interaction folded into the profile: its product, attributes, weighted price and score. */
  function Step(pr: Profile, p: Product, w: real): (r: Profile)
    requires DistinctKeys(pr.scores)
    ensures DistinctKeys(r.scores)
  {
    pr.(scores := AddScore(pr.scores, p.id, w),
        interacted := pr.interacted + {p.id},
        countries := pr.countries + p.countries,
        roastLevels := if p.roastLevel.Some? then pr.roastLevels + {p.roastLevel.value} else pr.roastLevels,
        beanTypes := pr.beanTypes + p.beanTypes,
        priceSum := pr.priceSum + Weighted(w, p.basePrice),
        priceCount := pr.priceCount + w)
  }

  /** The average preferred price: price sum over weight total, 0 without weight. */
  function WithAvgPrice(pr: Profile): Profile
  {
    pr.(avgPrice := if pr.priceCount > 0.0 then pr.priceSum / pr.priceCount else 0.0)
  }

  /** The profile user_profile builds from the user's interactions. */
  function ProfileOf(events: seq<Event>, rate: real, now: int, exp: real -> real): Profile
    requires ExpLaws(exp)
  {
    WithAvgPrice(Gather(events, rate, now, exp))
  }

  /** The interaction loop of user_profile. */
  method BuildProfile(events: seq<Event>, rate: real, now: int, exp: real -> real) returns (pr: Profile)
    requires ExpLaws(exp)
    ensures pr == ProfileOf(events, rate, now, exp)
  {
    var profile := EmptyProfile;
    for i := 0 to |events|
      invariant profile == Gather(events[..i], rate, now, exp)
    {
      ghost var before := profile;
      var product := events[i].product;
      var weight := EventWeight(events[i], rate, now, exp);
      profile := profile.(scores := AddScore(profile.scores, product.id, weight));
      profile := profile.(interacted := profile.interacted + {product.id});
      profile := profile.(countries := profile.countries + product.countries);
      if product.roastLevel.Some? {
        profile := profile.(roastLevels := profile.roastLevels + {product.roastLevel.value});
      }
      profile := profile.(beanTypes := profile.beanTypes + product.beanTypes);
      profile := profile.(priceSum := profile.priceSum + Weighted(weight, product.basePrice));
      profile := profile.(priceCount := profile.priceCount + weight);
      assert profile == Step(before, product, weight);
      GatherStep(events, i, rate, now, exp);
    }
    assert events[..|events|] == events;
    var avgPrice := if profile.priceCount > 0.0 then profile.priceSum / profile.priceCount else 0.0;
    pr := profile.(avgPrice := avgPrice);
  }

  /** Gathering one more interaction is one more Step. */
  lemma GatherStep(events: seq<Event>, i: nat, rate: real, now: int, exp: real -> real)
    requires ExpLaws(exp) && i < |events|
    ensures Gather(events[..i + 1], rate, now, exp) ==
      Step(Gather(events[..i], rate, now, exp), events[i].product, EventWeight(events[i], rate, now, exp))
  {
    assert events[..i + 1][..i] == events[..i];
  }

  function ProductIdsOf(events: seq<Event>): set<int>
  {
    set i | 0 <= i < |events| :: events[i].product.id
  }

  /**
   * Every interaction's product is in the profile and nothing else is; each interacted
   * product has exactly one score entry; the weight total is non-negative; and every
   * interaction's countries and bean types are among the preferences.
   */
  lemma {:induction false} GatherMeaning(events: seq<Event>, rate: real, now: int, exp: real -> real)
    requires ExpLaws(exp)
    ensures Gather(events, rate, now, exp).interacted == ProductIdsOf(events)
    ensures Keys(Gather(events, rate, now, exp).scores) == ProductIdsOf(events)
    ensures Gather(events, rate, now, exp).priceCount >= 0.0
    ensures forall i :: 0 <= i < |events| ==>
      events[i].product.countries <= Gather(events, rate, now, exp).countries &&
      events[i].product.beanTypes <= Gather(events, rate, now, exp).beanTypes
  {
    if events != [] {
      var init := events[..|events| - 1];
      var e := events[|events| - 1];
      GatherMeaning(init, rate, now, exp);
      var pr := Gather(init, rate, now, exp);
      var g := Gather(events, rate, now, exp);
      assert g == Step(pr, e.product, EventWeight(e, rate, now, exp));
      ProductIdsSnoc(events);
      forall i | 0 <= i < |events|
        ensures events[i].product.countries <= g.countries && events[i].product.beanTypes <= g.beanTypes
      {
        if i < |events| - 1 {
          assert events[i] == init[i];
        }
      }
    }
  }

  /** The products of a sequence of interactions: those before the last, and the last one's. */
  lemma ProductIdsSnoc(events: seq<Event>)
    requires events != []
    ensures ProductIdsOf(events) == ProductIdsOf(events[..|events| - 1]) + {events[|events| - 1].product.id}
  {
    var init := events[..|events| - 1];
    assert forall i :: 0 <= i < |init| ==> init[i] == events[i];
    assert events[|events| - 1].product.id in ProductIdsOf(events);
  }

  /** The scores in the profile are all non-negative. */
  lemma {:induction false} GatherScoresNonNegative(events: seq<Event>, rate: real, now: int, exp: real -> real)
    requires ExpLaws(exp)
    ensures forall i :: 0 <= i < |Gather(events, rate, now, exp).scores| ==> Gather(events, rate, now, exp).scores[i].1 >= 0.0
  {
    if events != [] {
      GatherScoresNonNegative(events[..|events| - 1], rate, now, exp);
    }
  }

  /** The weighted price sum lies between lo and hi times the weight total. */
  predicate PricesWithin(pr: Profile, lo: real, hi: real)
  {
    pr.priceCount * lo <= pr.priceSum <= pr.priceCount * hi
  }

  /**
   * When every interacted product costs between lo and hi, the weighted price sum lies between
   * lo and hi times the weight total, so a positive total puts the average price in [lo, hi].
   */
  lemma {:induction false} GatherPriceBounds(events: seq<Event>, rate: real, now: int, exp: real -> real, lo: real, hi: real)
    requires ExpLaws(exp)
    requires forall i :: 0 <= i < |events| ==> lo <= events[i].product.basePrice <= hi
    ensures PricesWithin(Gather(events, rate, now, exp), lo, hi)
  {
    if events != [] {
      var init := events[..|events| - 1];
      assert forall i :: 0 <= i < |init| ==> init[i] == events[i];
      GatherPriceBounds(init, rate, now, exp, lo, hi);
      var e := events[|events| - 1];
      var g, w := Gather(init, rate, now, exp), EventWeight(e, rate, now, exp);
      StepPriceBounds(g, e.product, w, lo, hi);
      assert Gather(events, rate, now, exp) == Step(g, e.product, w);
    }
  }

  /** Folding in a product priced within [lo, hi] keeps the price sum within lo and hi times the weight total. */
  lemma StepPriceBounds(pr: Profile, p: Product, w: real, lo: real, hi: real)
    requires DistinctKeys(pr.scores) && w >= 0.0 && lo <= p.basePrice <= hi
    requires PricesWithin(pr, lo, hi)
    ensures PricesWithin(Step(pr, p, w), lo, hi)
  {
    var c, t := pr.priceCount, pr.priceSum;
    assert Step(pr, p, w).priceSum == t + w * p.basePrice;
    assert Step(pr, p, w).priceCount == c + w;
    MulRealMonotone(w, lo, p.basePrice);
    MulRealMonotone(w, p.basePrice, hi);
    Distribute(c, w, lo);
    Distribute(c, w, hi);
  }

  lemma MulRealMonotone(w: real, a: real, b: real)
    requires w >= 0.0 && a <= b
    ensures a * w <= b * w
  {
  }

  lemma Distribute(c: real, w: real, x: real)
    ensures (c + w) * x == c * x + x * w
  {
  }

  lemma AvgPriceBounds(events: seq<Event>, rate: real, now: int, exp: real -> real, lo: real, hi: real)
    requires ExpLaws(exp) && lo >= 0.0
    requires forall i :: 0 <= i < |events| ==> lo <= events[i].product.basePrice <= hi
    ensures var pr := ProfileOf(events, rate, now, exp);
      pr.priceCount > 0.0 ==> lo <= pr.avgPrice <= hi
    ensures ProfileOf(events, rate, now, exp).avgPrice >= 0.0
  {
    GatherPriceBounds(events, rate, now, exp, lo, hi);
    AvgWithin(Gather(events, rate, now, exp), lo, hi);
  }

  lemma AvgWithin(pr: Profile, lo: real, hi: real)
    requires PricesWithin(pr, lo, hi) && lo >= 0.0
    ensures pr.priceCount > 0.0 ==> lo <= WithAvgPrice(pr).avgPrice <= hi
    ensures WithAvgPrice(pr).avgPrice >= 0.0
  {
    if pr.priceCount > 0.0 {
      DivBounds(pr.priceSum, pr.priceCount, lo, hi);
    }
  }

  /** The per-user profile cache. */
  class ProfileCache {
    var entries: map<int, Profile>

    constructor ()
      ensures entries == map[]
    {
      entries := map[];
    }
  }

  /** user_profile: the cached profile when there is one, otherwise built and cached. */
  method UserProfile(cache: ProfileCache, user: int, events: seq<Event>, rate: real, now: int, exp: real -> real)
    returns (pr: Profile)
    requires ExpLaws(exp)
    modifies cache
    ensures user in old(cache.entries) ==> pr == old(cache.entries)[user] && cache.entries == old(cache.entries)
    ensures user !in old(cache.entries) ==>
      pr == ProfileOf(events, rate, now, exp) && cache.entries == old(cache.entries)[user := pr]
  {
    if user in cache.entries {
      return cache.entries[user];
    }
    pr := BuildProfile(events, rate, now, exp);
    cache.entries := cache.entries[user := pr];
  }

  // ---------------------------------------------------------------- calculate_content_similarity

  /** |a & b| / |a | b|, 0 for two empty sets. */
  function Jaccard(a: set<int>, b: set<int>): (r: real)
    ensures 0.0 <= r <= 1.0
  {
    JaccardBounded(a, b);
    if |a + b| > 0 then |a * b| as real / |a + b| as real else 0.0
  }

  lemma JaccardBounded(a: set<int>, b: set<int>)
    ensures |a * b| <= |a + b|
  {
    SubsetCard(a * b, a + b);
  }

  lemma {:induction false} SubsetCard(x: set<int>, y: set<int>)
    requires x <= y
    ensures |x| <= |y|
    ensures |x| == |y| ==> x == y
    decreases |y|
  {
    if y != {} {
      HasElement(y);
      var e :| e in y;
      SubsetCard(x - {e}, y - {e});
      if e in x {
        assert |x| == |x - {e}| + 1;
      } else {
        assert x - {e} == x;
        assert |x| <= |y - {e}|;
      }
      if |x| == |y| {
        assert e in x;
        assert x - {e} == y - {e};
        assert x == (x - {e}) + {e};
        assert y == (y - {e}) + {e};
      }
    } else {
      NoElementIsEmpty(x);
    }
  }

  lemma JaccardSymmetric(a: set<int>, b: set<int>)
    ensures Jaccard(a, b) == Jaccard(b, a)
  {
    assert a * b == b * a && a + b == b + a;
  }

  lemma UnionNotEmpty(a: set<int>, b: set<int>)
    requires a != {} || b != {}
    ensures |a + b| > 0
  {
    if a != {} {
      HasElement(a);
      var x :| x in a;
      assert x in a + b;
    } else {
      HasElement(b);
      var x :| x in b;
      assert x in a + b;
    }
  }

  /** Sets that are not both empty are fully similar exactly when they are equal. */
  lemma JaccardOneIffEqual(a: set<int>, b: set<int>)
    requires a != {} || b != {}
    ensures Jaccard(a, b) == 1.0 <==> a == b
  {
    UnionNotEmpty(a, b);
    var i, u := |a * b| as real, |a + b| as real;
    if a == b {
      assert a * b == a + b;
    }
    if Jaccard(a, b) == 1.0 {
      assert i / u == 1.0;
      assert i == u;
      SubsetCard(a * b, a + b);
      assert a * b == a + b;
      assert forall x :: x in a ==> x in a * b;
      assert forall x :: x in b ==> x in a * b;
    }
  }

  /** Sets that are not both empty are not at all similar exactly when they are disjoint. */
  lemma JaccardZeroIffDisjoint(a: set<int>, b: set<int>)
    requires a != {} || b != {}
    ensures Jaccard(a, b) == 0.0 <==> a * b == {}
  {
    UnionNotEmpty(a, b);
    if a * b != {} {
      HasElement(a * b);
      var x :| x in a * b;
      assert |a * b| > 0;
    }
  }

  /** The set similarity of content scoring: Jaccard, or a neutral 0.5 when either side has no data. */
  function SetSimilarity(preferred: set<int>, own: set<int>): (r: real)
    ensures 0.0 <= r <= 1.0
    ensures preferred == {} || own == {} ==> r == 0.5
  {
    if preferred != {} && own != {} then Jaccard(preferred, own) else 0.5
  }

  /** Roast similarity: 1 for a preferred roast, 0 for another, 0.5 without data. */
  function RoastSimilarity(preferred: set<int>, roast: Option<int>): (r: real)
    ensures r == 0.0 || r == 0.5 || r == 1.0
    ensures r == 1.0 <==> roast.Some? && roast.value in preferred
    ensures r == 0.5 <==> roast.None? || preferred == {}
  {
    if roast.Some? && preferred != {} then (if roast.value in preferred then 1.0 else 0.0) else 0.5
  }

  /** Price similarity: 1 minus the distance to the preferred price relative to the highest price. */
  function PriceSimilarity(avgPrice: real, price: real, maxPrice: real): (r: real)
    ensures avgPrice <= 0.0 ==> r == 0.5
    ensures avgPrice > 0.0 && maxPrice <= 0.0 ==> r == 1.0
    ensures r <= 1.0
    ensures avgPrice > 0.0 && 0.0 <= price <= maxPrice && 0.0 < avgPrice <= maxPrice ==> 0.0 <= r
  {
    if avgPrice > 0.0 then
      (if maxPrice > 0.0 then
        PriceGapBounds(avgPrice, price, maxPrice);
        1.0 - Abs(price - avgPrice) / maxPrice
      else 1.0)
    else 0.5
  }

  /** The price gap relative to the highest price is non-negative, and at most 1 for prices within [0, maxPrice]. */
  lemma PriceGapBounds(avgPrice: real, price: real, maxPrice: real)
    requires maxPrice > 0.0
    ensures Abs(price - avgPrice) / maxPrice >= 0.0
    ensures 0.0 <= price <= maxPrice && 0.0 <= avgPrice <= maxPrice ==> Abs(price - avgPrice) / maxPrice <= 1.0
  {
    var gap := Abs(price - avgPrice);
    if 0.0 <= price <= maxPrice && 0.0 <= avgPrice <= maxPrice {
      DivBounds(gap, maxPrice, 0.0, 1.0);
    } else {
      DivBounds(gap, maxPrice, 0.0, gap / maxPrice);
    }
  }

  /** The highest base price in the catalog. */
  function MaxPrice(catalog: seq<Product>): (m: real)
    requires catalog != []
    ensures forall i :: 0 <= i < |catalog| ==> catalog[i].basePrice <= m
    ensures exists i :: 0 <= i < |catalog| && catalog[i].basePrice == m
  {
    if |catalog| == 1 then catalog[0].basePrice
    else
      var rest := MaxPrice(catalog[..|catalog| - 1]);
      assert forall i :: 0 <= i < |catalog| - 1 ==> catalog[..|catalog| - 1][i] == catalog[i];
      Max(rest, catalog[|catalog| - 1].basePrice)
  }

  function Clamp01(x: real): (r: real)
    ensures 0.0 <= r <= 1.0
    ensures 0.0 <= x <= 1.0 ==> r == x
  {
    if 1.0 <= Max(0.0, x) then 1.0 else Max(0.0, x)
  }

  /**
   * calculate_content_similarity: 0 for a user without interactions; otherwise the weighted
   * country, roast, bean and price similarities, clamped to [0, 1].
   */
  function ContentSimilarity(pr: Profile, p: Product, catalog: seq<Product>, s: RecSettings): (r: real)
    requires pr.interacted != {} && pr.avgPrice > 0.0 ==> catalog != []
    ensures 0.0 <= r <= 1.0
    ensures pr.interacted == {} ==> r == 0.0
  {
    if pr.interacted == {} then 0.0 else Clamp01(FeatureSimilarity(pr, p, catalog, s))
  }

  /** The weighted country, roast, bean and price similarities before clamping. */
  function FeatureSimilarity(pr: Profile, p: Product, catalog: seq<Product>, s: RecSettings): real
    requires pr.avgPrice > 0.0 ==> catalog != []
  {
    var countrySim := SetSimilarity(pr.countries, p.countries);
    var roastSim := RoastSimilarity(pr.roastLevels, p.roastLevel);
    var beanSim := SetSimilarity(pr.beanTypes, p.beanTypes);
    var priceSim := PriceSimilarity(pr.avgPrice, p.basePrice, if pr.avgPrice > 0.0 then MaxPrice(catalog) else 0.0);
    Weighted(s.featureCountryWeight, countrySim) + Weighted(s.featureRoastWeight, roastSim) +
    Weighted(s.featureBeanWeight, beanSim) + Weighted(s.featurePriceWeight, priceSim)
  }

  /**
   * With valid feature weights summing to at most one and a catalog price range that covers the
   * product and the preferred price, the weighted similarity is already in [0, 1], so the clamp
   * changes nothing.
   */
  lemma ContentSimilarityUnclamped(pr: Profile, p: Product, catalog: seq<Product>, s: RecSettings)
    requires catalog != [] && pr.interacted != {} && RecFieldsValid(s)
    requires s.featureCountryWeight + s.featureRoastWeight + s.featureBeanWeight + s.featurePriceWeight <= 1.0
    requires pr.avgPrice > 0.0 ==> 0.0 <= p.basePrice <= MaxPrice(catalog) && pr.avgPrice <= MaxPrice(catalog)
    ensures 0.0 <= FeatureSimilarity(pr, p, catalog, s) <= 1.0
    ensures ContentSimilarity(pr, p, catalog, s) == FeatureSimilarity(pr, p, catalog, s)
  {
    var c := SetSimilarity(pr.countries, p.countries);
    var ro := RoastSimilarity(pr.roastLevels, p.roastLevel);
    var b := SetSimilarity(pr.beanTypes, p.beanTypes);
    var pc := PriceSimilarity(pr.avgPrice, p.basePrice, if pr.avgPrice > 0.0 then MaxPrice(catalog) else 0.0);
    WeightedSumInUnit(s.featureCountryWeight, s.featureRoastWeight, s.featureBeanWeight, s.featurePriceWeight, c, ro, b, pc);
  }

  /** A weight applied to a similarity in [0, 1] contributes between nothing and the whole weight. */
  function Weighted(w: real, x: real): (r: real)
    ensures 0.0 <= w && 0.0 <= x <= 1.0 ==> 0.0 <= r <= w
  {
    w * x
  }

  lemma WeightedSumInUnit(w1: real, w2: real, w3: real, w4: real, x1: real, x2: real, x3: real, x4: real)
    requires 0.0 <= w1 <= 1.0 && 0.0 <= w2 <= 1.0 && 0.0 <= w3 <= 1.0 && 0.0 <= w4 <= 1.0
    requires w1 + w2 + w3 + w4 <= 1.0
    requires 0.0 <= x1 <= 1.0 && 0.0 <= x2 <= 1.0 && 0.0 <= x3 <= 1.0 && 0.0 <= x4 <= 1.0
    ensures 0.0 <= Weighted(w1, x1) + Weighted(w2, x2) + Weighted(w3, x3) + Weighted(w4, x4) <= 1.0
  {
  }

  // ---------------------------------------------------------------- calculate_collaborative_score

  /** The stored similarity from product a to product b (the table holds one row per pair). */
  function StoredSimilarity(rows: seq<SimilarityRow>, a: int, b: int): (r: Option<real>)
    ensures r.Some? ==> exists k :: 0 <= k < |rows| && rows[k] == SimilarityRow(a, b, r.value)
    ensures r.None? ==> forall k :: 0 <= k < |rows| ==> rows[k].productA != a || rows[k].productB != b
  {
    if rows == [] then None
    else
      var last := rows[|rows| - 1];
      if last.productA == a && last.productB == b then Some(last.similarityScore)
      else
        var r := StoredSimilarity(rows[..|rows| - 1], a, b);
        assert forall k :: 0 <= k < |rows| - 1 ==> rows[..|rows| - 1][k] == rows[k];
        r
  }

  /** Sums of score * similarity and of score over the interacted products that have a stored similarity to b. */
  function CollaborativeSums(scores: seq<(int, real)>, rows: seq<SimilarityRow>, b: int): (real, real)
  {
    if scores == [] then (0.0, 0.0)
    else
      var sums := CollaborativeSums(scores[..|scores| - 1], rows, b);
      var entry := scores[|scores| - 1];
      var sim := StoredSimilarity(rows, entry.0, b);
      if sim.Some? then (sums.0 + Weighted(entry.1, sim.value), sums.1 + entry.1) else sums
  }

  /**
   * calculate_collaborative_score: 0 without history or for a product already interacted
   * with; otherwise the score-weighted mean of the stored similarities, 0 when none match.
   */
  function Collaborative(pr: Profile, b: int, rows: seq<SimilarityRow>): real
  {
    if pr.interacted == {} || b in pr.interacted then 0.0
    else
      var sums := CollaborativeSums(pr.scores, rows, b);
      if sums.1 > 0.0 then sums.0 / sums.1 else 0.0
  }

  /** The weighted-sum loop of calculate_collaborative_score. */
  method CollaborativeScore(pr: Profile, b: int, rows: seq<SimilarityRow>) returns (r: real)
    ensures r == Collaborative(pr, b, rows)
  {
    if pr.interacted == {} || b in pr.interacted {
      return 0.0;
    }
    var weightedSum := 0.0;
    var weightSum := 0.0;
    for i := 0 to |pr.scores|
      invariant (weightedSum, weightSum) == CollaborativeSums(pr.scores[..i], rows, b)
    {
      var interactedId, interactionScore := pr.scores[i].0, pr.scores[i].1;
      var sim := StoredSimilarity(rows, interactedId, b);
      ghost var prefix := pr.scores[..i + 1];
      assert prefix[..|prefix| - 1] == pr.scores[..i];
      assert CollaborativeSums(prefix, rows, b).0 ==
        if sim.Some? then weightedSum + Weighted(interactionScore, sim.value) else weightedSum;
      assert CollaborativeSums(prefix, rows, b).1 == if sim.Some? then weightSum + interactionScore else weightSum;
      if sim.Some? {
        weightedSum := weightedSum + Weighted(interactionScore, sim.value);
        weightSum := weightSum + interactionScore;
      }
    }
    assert pr.scores[..|pr.scores|] == pr.scores;
    if weightSum > 0.0 {
      return weightedSum / weightSum;
    }
    return 0.0;
  }

  predicate SimilaritiesInUnit(rows: seq<SimilarityRow>)
  {
    forall k :: 0 <= k < |rows| ==> 0.0 <= rows[k].similarityScore <= 1.0
  }

  lemma {:induction false} CollaborativeSumsBounds(scores: seq<(int, real)>, rows: seq<SimilarityRow>, b: int)
    requires SimilaritiesInUnit(rows)
    requires forall i :: 0 <= i < |scores| ==> scores[i].1 >= 0.0
    ensures 0.0 <= CollaborativeSums(scores, rows, b).0 <= CollaborativeSums(scores, rows, b).1
  {
    if scores != [] {
      var init := scores[..|scores| - 1];
      assert forall i :: 0 <= i < |init| ==> init[i] == scores[i];
      CollaborativeSumsBounds(init, rows, b);
      var entry := scores[|scores| - 1];
      var sim := StoredSimilarity(rows, entry.0, b);
      if sim.Some? {
        var k :| 0 <= k < |rows| && rows[k] == SimilarityRow(entry.0, b, sim.value);
        assert 0.0 <= sim.value <= 1.0;
      }
    }
  }

  /** With similarities in [0, 1] and non-negative scores, the collaborative score is in [0, 1]. */
  lemma CollaborativeInUnit(pr: Profile, b: int, rows: seq<SimilarityRow>)
    requires SimilaritiesInUnit(rows)
    requires forall i :: 0 <= i < |pr.scores| ==> pr.scores[i].1 >= 0.0
    ensures 0.0 <= Collaborative(pr, b, rows) <= 1.0
  {
    if !(pr.interacted == {} || b in pr.interacted) {
      CollaborativeSumsBounds(pr.scores, rows, b);
      var sums := CollaborativeSums(pr.scores, rows, b);
      if sums.1 > 0.0 {
        DivBounds(sums.0, sums.1, 0.0, 1.0);
      }
    }
  }

  // ---------------------------------------------------------------- calculate_popularity_score

  function PurchaseCountOf(p: Product): real { p.purchaseCount as real }

  /** (avg_rating or 0) * (review_count or 0). */
  function ReviewScore(p: Product): real
  {
    (if p.avgRating.Some? then p.avgRating.value else 0.0) * p.reviewCount as real
  }

  function MaxOver(catalog: seq<Product>, f: Product -> real): (m: real)
    requires catalog != []
    ensures forall i :: 0 <= i < |catalog| ==> f(catalog[i]) <= m
  {
    if |catalog| == 1 then f(catalog[0])
    else
      var rest := MaxOver(catalog[..|catalog| - 1], f);
      assert forall i :: 0 <= i < |catalog| - 1 ==> catalog[..|catalog| - 1][i] == catalog[i];
      Max(rest, f(catalog[|catalog| - 1]))
  }

  /** A maximum that is 0 is replaced by 1 (Python's `max(...) or 1`). */
  function OrOne(x: real): real { if x == 0.0 then 1.0 else x }

  /** calculate_popularity_score: 0.6 of the relative purchases plus 0.4 of the relative review score. */
  function Popularity(p: Product, catalog: seq<Product>): real
    requires catalog != []
  {
    var maxPurchases := OrOne(MaxOver(catalog, PurchaseCountOf));
    var maxReviewScore := OrOne(MaxOver(catalog, ReviewScore));
    0.6 * (PurchaseCountOf(p) / maxPurchases) + 0.4 * (ReviewScore(p) / maxReviewScore)
  }

  /** A catalog product with non-negative ratings scores within [0, 1]. */
  lemma PopularityInUnit(p: Product, catalog: seq<Product>)
    requires p in catalog
    requires forall q :: q in catalog ==> q.avgRating.Some? ==> q.avgRating.value >= 0.0
    ensures 0.0 <= Popularity(p, catalog) <= 1.0
  {
    var i :| 0 <= i < |catalog| && catalog[i] == p;
    var mp := MaxOver(catalog, PurchaseCountOf);
    var mr := MaxOver(catalog, ReviewScore);
    assert 0.0 <= ReviewScore(p);
    if mp != 0.0 {
      DivBounds(PurchaseCountOf(p), mp, 0.0, 1.0);
    }
    if mr != 0.0 {
      DivBounds(ReviewScore(p), mr, 0.0, 1.0);
    }
  }

  // ---------------------------------------------------------------- get_recommendations

  datatype Algorithm = Hybrid | Popular

  datatype Recommendation = Recommendation(
    product: Product,
    score: real,
    algorithm: Algorithm,
    content: real,
    collaborative: real,
    popularity: real)

  /** The scored entry get_recommendations makes for a product that is not excluded. */
  function Scored(pr: Profile, p: Product, catalog: seq<Product>, rows: seq<SimilarityRow>, s: RecSettings): (r: Recommendation)
    requires catalog != []
    ensures r.product == p
    ensures pr.interacted == {} ==> r.algorithm == Popular && r.score == r.popularity
    ensures pr.interacted != {} ==> (r.algorithm == Hybrid &&
      r.score == Weighted(s.weightContentBased, r.content) + Weighted(s.weightCollaborative, r.collaborative) +
                 Weighted(s.weightPopularity, r.popularity))
  {
    var content := ContentSimilarity(pr, p, catalog, s);
    var collab := Collaborative(pr, p.id, rows);
    var popularity := Popularity(p, catalog);
    if pr.interacted != {} then
      Recommendation(p, Weighted(s.weightContentBased, content) + Weighted(s.weightCollaborative, collab) +
                        Weighted(s.weightPopularity, popularity),
        Hybrid, content, collab, popularity)
    else Recommendation(p, popularity, Popular, content, collab, popularity)
  }

  /** The entries for the catalog products outside `exclude`, in catalog order. */
  function Candidates(pr: Profile, products: seq<Product>, catalog: seq<Product>, rows: seq<SimilarityRow>,
                      s: RecSettings, exclude: set<int>): (r: seq<Recommendation>)
    requires products != [] ==> catalog != []
    ensures |r| <= |products|
    ensures forall k :: 0 <= k < |r| ==> r[k].product in products && r[k].product.id !in exclude
    ensures forall k :: 0 <= k < |r| ==> r[k] == Scored(pr, r[k].product, catalog, rows, s)
    ensures forall q :: q in products && q.id !in exclude ==> exists k :: 0 <= k < |r| && r[k].product == q
  {
    if products == [] then []
    else
      var init := Candidates(pr, products[..|products| - 1], catalog, rows, s, exclude);
      var p := products[|products| - 1];
      assert forall q :: q in products ==> q in products[..|products| - 1] || q == p;
      if p.id in exclude then init
      else
        var r := init + [Scored(pr, p, catalog, rows, s)];
        forall q | q in products && q.id !in exclude
          ensures exists k :: 0 <= k < |r| && r[k].product == q
        {
          if q == p {
            assert r[|init|].product == q;
          } else {
            var k :| 0 <= k < |init| && init[k].product == q;
            assert r[k].product == q;
          }
        }
        r
  }

  function ScoreKey(r: Recommendation): real { r.score }

  /** The caller's exclusion set, which get_recommendations extends in place. */
  class IdSet {
    var ids: set<int>

    constructor (ids: set<int>)
      ensures this.ids == ids
    {
      this.ids := ids;
    }
  }

  /**
   * get_recommendations: the catalog products outside the exclusion set and the products the
   * user interacted with, scored, ordered by score (highest first) and cut to `limit` entries.
   * A non-empty caller set gains the interacted products; an empty or absent one is replaced by
   * a fresh set, so the caller's set is untouched.
   */
  method GetRecommendations(pr: Profile, catalog: seq<Product>, rows: seq<SimilarityRow>, s: RecSettings,
                            limit: int, excludeProducts: IdSet?)
    returns (top: seq<Recommendation>)
    modifies excludeProducts
    ensures var exclude := (if excludeProducts != null then old(excludeProducts.ids) else {}) + pr.interacted;
      top == TakePrefix(SortDescBy(Candidates(pr, catalog, catalog, rows, s, exclude), ScoreKey), limit)
    ensures excludeProducts != null && old(excludeProducts.ids) != {} ==>
      excludeProducts.ids == old(excludeProducts.ids) + pr.interacted
    ensures excludeProducts != null && old(excludeProducts.ids) == {} ==> excludeProducts.ids == {}
  {
    ghost var given := if excludeProducts != null then excludeProducts.ids else {};
    var exclude: set<int>;
    if excludeProducts != null && excludeProducts.ids != {} {
      excludeProducts.ids := excludeProducts.ids + pr.interacted;
      exclude := excludeProducts.ids;
    } else {
      exclude := pr.interacted;
      assert given == {};
      EmptyUnion(pr.interacted);
    }
    assert exclude == given + pr.interacted;
    var recommendations := ScoreCandidates(pr, catalog, rows, s, exclude);
    recommendations := SortDescBy(recommendations, ScoreKey);
    top := TakePrefix(recommendations, limit);
  }

  /** The scoring loop of get_recommendations: one entry per catalog product outside `exclude`, in catalog order. */
  method ScoreCandidates(pr: Profile, catalog: seq<Product>, rows: seq<SimilarityRow>, s: RecSettings, exclude: set<int>)
    returns (recommendations: seq<Recommendation>)
    ensures recommendations == Candidates(pr, catalog, catalog, rows, s, exclude)
  {
    recommendations := [];
    for i := 0 to |catalog|
      invariant recommendations == Candidates(pr, catalog[..i], catalog, rows, s, exclude)
    {
      ghost var prefix := catalog[..i + 1];
      assert prefix[..|prefix| - 1] == catalog[..i];
      var product := catalog[i];
      if product.id !in exclude {
        var contentScore := ContentSimilarity(pr, product, catalog, s);
        var collabScore := CollaborativeScore(pr, product.id, rows);
        var popularityScore := Popularity(product, catalog);
        var finalScore, algorithm;
        if pr.interacted != {} {
          finalScore := Weighted(s.weightContentBased, contentScore) + Weighted(s.weightCollaborative, collabScore) +
                        Weighted(s.weightPopularity, popularityScore);
          algorithm := Hybrid;
        } else {
          finalScore := popularityScore;
          algorithm := Popular;
        }
        var entry := Recommendation(product, finalScore, algorithm, contentScore, collabScore, popularityScore);
        assert entry == Scored(pr, product, catalog, rows, s);
        recommendations := recommendations + [entry];
      }
    }
    assert catalog[..|catalog|] == catalog;
  }

  lemma EmptyUnion(a: set<int>)
    ensures {} + a == a
  {
    assert forall x :: x in {} + a <==> x in a;
  }

  /**
   * The list get_recommendations returns: at most `limit` entries, highest score first, none
   * excluded or already interacted with, each scored as the algorithm prescribes; with no
   * history every entry is a popularity entry.
   */
  lemma RecommendationsMeaning(pr: Profile, catalog: seq<Product>, rows: seq<SimilarityRow>, s: RecSettings,
                               limit: int, exclude: set<int>)
    ensures var top := TakePrefix(SortDescBy(Candidates(pr, catalog, catalog, rows, s, exclude + pr.interacted), ScoreKey), limit);
      (limit >= 0 ==> |top| <= limit) &&
      SortedDescBy(top, ScoreKey) &&
      (forall k :: 0 <= k < |top| ==>
        top[k].product in catalog && top[k].product.id !in exclude && top[k].product.id !in pr.interacted &&
        top[k] == Scored(pr, top[k].product, catalog, rows, s)) &&
      (pr.interacted == {} ==> forall k :: 0 <= k < |top| ==> top[k].algorithm == Popular && top[k].score == top[k].popularity)
  {
    var cands := Candidates(pr, catalog, catalog, rows, s, exclude + pr.interacted);
    var sorted := SortDescBy(cands, ScoreKey);
    var top := TakePrefix(sorted, limit);
    SameElements(sorted, cands);
    forall k | 0 <= k < |top|
      ensures top[k] in cands
    {
      assert top[k] == sorted[k];
    }
  }

  // ---------------------------------------------------------------- record_interaction

  /**
   * record_interaction: get-or-create the (user, product, type) row with count 1, or add
   * exactly 1 to an existing row's count (stamping it with the current time either way), then
   * drop the user's cached profile.
   */
  method RecordInteraction(table: InteractionTable, cache: ProfileCache, user: int, product: int,
                           interactionType: string, now: int)
    requires table.Valid()
    modifies table, cache
    ensures table.Valid()
    ensures table.rows == Bump(old(table.rows), InteractionKey(user, product, interactionType), now)
    ensures var key := InteractionKey(user, product, interactionType);
      key in table.rows &&
      table.rows == old(table.rows)[key := table.rows[key]] &&
      table.rows[key].lastInteraction == now &&
      table.rows[key].interactionCount ==
        if key in old(table.rows) then old(table.rows)[key].interactionCount + 1 else 1
    ensures cache.entries == old(cache.entries) - {user}
  {
    var key := InteractionKey(user, product, interactionType);
    if key !in table.rows {
      table.rows := table.rows[key := Interaction(key, 1, now)];
    } else {
      var interaction := table.rows[key];
      interaction := interaction.(interactionCount := interaction.interactionCount + 1, lastInteraction := now);
      table.rows := table.rows[key := interaction];
    }
    cache.entries := cache.entries - {user};
  }

  /** How many times the key's interaction happened: its row's count, 0 without a row. */
  function CountOf(rows: map<InteractionKey, Interaction>, key: InteractionKey): nat
  {
    if key in rows then rows[key].interactionCount else 0
  }

  /** The interaction rows after one record_interaction of the key at time now. */
  function Bump(rows: map<InteractionKey, Interaction>, key: InteractionKey, now: int): (r: map<InteractionKey, Interaction>)
    ensures r.Keys == rows.Keys + {key}
    ensures CountOf(r, key) == CountOf(rows, key) + 1 && r[key].lastInteraction == now
    ensures forall k :: k in rows && k != key ==> r[k] == rows[k]
  {
    if key in rows then rows[key := rows[key].(interactionCount := rows[key].interactionCount + 1, lastInteraction := now)]
    else rows[key := Interaction(key, 1, now)]
  }

  /** The interaction rows after recording one interaction of the type per product, in order. */
  function BumpAll(rows: map<InteractionKey, Interaction>, user: int, products: seq<int>, interactionType: string, now: int):
    map<InteractionKey, Interaction>
  {
    if products == [] then rows
    else Bump(BumpAll(rows, user, products[..|products| - 1], interactionType, now),
              InteractionKey(user, products[|products| - 1], interactionType), now)
  }

  /** Recording a list of products raises each product's count for the user and type by the number of times it is listed. */
  lemma {:induction false} BumpAllCounts(rows: map<InteractionKey, Interaction>, user: int, products: seq<int>,
                                         interactionType: string, now: int, q: int)
    ensures CountOf(BumpAll(rows, user, products, interactionType, now), InteractionKey(user, q, interactionType)) ==
      CountOf(rows, InteractionKey(user, q, interactionType)) + multiset(products)[q]
  {
    if products != [] {
      var n := |products| - 1;
      BumpAllCounts(rows, user, products[..n], interactionType, now, q);
      assert products == products[..n] + [products[n]];
      assert multiset(products)[q] == multiset(products[..n])[q] + multiset([products[n]])[q];
    }
  }

  /** Recording a list of products leaves the rows of other users and other types as they were. */
  lemma {:induction false} BumpAllOthers(rows: map<InteractionKey, Interaction>, user: int, products: seq<int>,
                                         interactionType: string, now: int, k: InteractionKey)
    requires k.user != user || k.interactionType != interactionType
    ensures k in BumpAll(rows, user, products, interactionType, now) <==> k in rows
    ensures k in rows ==> BumpAll(rows, user, products, interactionType, now)[k] == rows[k]
  {
    if products != [] {
      BumpAllOthers(rows, user, products[..|products| - 1], interactionType, now, k);
    }
  }

  // ---------------------------------------------------------------- compute_product_similarities

  /** Jaccard for the batch: 0 when either set is empty. */
  function BatchJaccard(a: set<int>, b: set<int>): (r: real)
    ensures 0.0 <= r <= 1.0
    ensures a == {} || b == {} ==> r == 0.0
  {
    if a != {} && b != {} then Jaccard(a, b) else 0.0
  }

  /** The similarity of two products: 0.25 country + 0.30 roast + 0.25 beans + 0.20 price. */
  function PairSimilarity(a: Product, b: Product, maxPriceDiff: real): real
  {
    var countrySim := BatchJaccard(a.countries, b.countries);
    var roastSim := if a.roastLevel == b.roastLevel then 1.0 else 0.0;
    var beanSim := BatchJaccard(a.beanTypes, b.beanTypes);
    var priceSim := if maxPriceDiff > 0.0 then 1.0 - Abs(a.basePrice - b.basePrice) / maxPriceDiff else 1.0;
    0.25 * countrySim + 0.30 * roastSim + 0.25 * beanSim + 0.20 * priceSim
  }

  /**
   * Pair similarity is symmetric, in [0, 1] when the price gap is within range, and 1 for a
   * product with itself when it has at least one country and one bean type (without them a
   * Jaccard term is 0).
   */
  lemma PairSimilarityMeaning(a: Product, b: Product, maxPriceDiff: real)
    ensures PairSimilarity(a, b, maxPriceDiff) == PairSimilarity(b, a, maxPriceDiff)
    ensures Abs(a.basePrice - b.basePrice) <= maxPriceDiff || maxPriceDiff <= 0.0 ==>
      0.0 <= PairSimilarity(a, b, maxPriceDiff) <= 1.0
    ensures a.countries != {} && a.beanTypes != {} ==> PairSimilarity(a, a, maxPriceDiff) == 1.0
  {
    if a.countries != {} && a.beanTypes != {} {
      JaccardOneIffEqual(a.countries, a.countries);
      JaccardOneIffEqual(a.beanTypes, a.beanTypes);
      assert Abs(a.basePrice - a.basePrice) == 0.0;
    }
    assert Abs(a.basePrice - b.basePrice) == Abs(b.basePrice - a.basePrice);
    JaccardSymmetric(a.countries, b.countries);
    JaccardSymmetric(a.beanTypes, b.beanTypes);
    if maxPriceDiff > 0.0 && Abs(a.basePrice - b.basePrice) <= maxPriceDiff {
      DivBounds(Abs(a.basePrice - b.basePrice), maxPriceDiff, 0.0, 1.0);
    }
  }

  function MaxBasePrice(ps: seq<Product>): (m: real)
    requires ps != []
    ensures forall i :: 0 <= i < |ps| ==> ps[i].basePrice <= m
  {
    MaxPrice(ps)
  }

  function MinBasePrice(ps: seq<Product>): (m: real)
    requires ps != []
    ensures forall i :: 0 <= i < |ps| ==> m <= ps[i].basePrice
  {
    if |ps| == 1 then ps[0].basePrice
    else
      var rest := MinBasePrice(ps[..|ps| - 1]);
      assert forall i :: 0 <= i < |ps| - 1 ==> ps[..|ps| - 1][i] == ps[i];
      if rest <= ps[|ps| - 1].basePrice then rest else ps[|ps| - 1].basePrice
  }

  /** The price range used for normalisation: max - min, or 1 for no products. */
  function PriceRange(ps: seq<Product>): (d: real)
    ensures d >= 0.0
    ensures forall i, j :: 0 <= i < |ps| && 0 <= j < |ps| ==> Abs(ps[i].basePrice - ps[j].basePrice) <= d
  {
    if ps == [] then 1.0 else MaxBasePrice(ps) - MinBasePrice(ps)
  }

  /** The two rows stored for the pair (i, j): both directions with one score. */
  function PairRows(ps: seq<Product>, i: nat, j: nat, maxPriceDiff: real): seq<SimilarityRow>
    requires i < |ps| && j < |ps|
  {
    var sim := PairSimilarity(ps[i], ps[j], maxPriceDiff);
    [SimilarityRow(ps[i].id, ps[j].id, sim), SimilarityRow(ps[j].id, ps[i].id, sim)]
  }

  /** The rows for the pairs (i, i+1), ..., (i, j-1). */
  function RowsOfProduct(ps: seq<Product>, i: nat, j: nat, maxPriceDiff: real): seq<SimilarityRow>
    requires i < |ps| && j <= |ps|
    decreases j
  {
    if j <= i + 1 then [] else RowsOfProduct(ps, i, j - 1, maxPriceDiff) + PairRows(ps, i, j - 1, maxPriceDiff)
  }

  /** The rows for every pair whose first product comes before index i. */
  function RowsBefore(ps: seq<Product>, i: nat, maxPriceDiff: real): seq<SimilarityRow>
    requires i <= |ps|
  {
    if i == 0 then [] else RowsBefore(ps, i - 1, maxPriceDiff) + RowsOfProduct(ps, i - 1, |ps|, maxPriceDiff)
  }

  /** compute_product_similarities: replaces the table with both directions of every pair and returns the row count. */
  method ComputeProductSimilarities(table: SimilarityTable, products: seq<Product>) returns (count: int)
    modifies table
    ensures table.rows == RowsBefore(products, |products|, PriceRange(products))
    ensures count == |table.rows|
  {
    var maxPriceDiff := if products == [] then 1.0 else MaxBasePrice(products) - MinBasePrice(products);
    count := 0;
    var similaritiesToCreate: seq<SimilarityRow> := [];
    for i := 0 to |products|
      invariant similaritiesToCreate == RowsBefore(products, i, maxPriceDiff)
      invariant count == |similaritiesToCreate|
    {
      for j := i + 1 to |products|
        invariant similaritiesToCreate == RowsBefore(products, i, maxPriceDiff) + RowsOfProduct(products, i, j, maxPriceDiff)
        invariant count == |similaritiesToCreate|
      {
        var similarity := PairSimilarity(products[i], products[j], maxPriceDiff);
        similaritiesToCreate := similaritiesToCreate + [SimilarityRow(products[i].id, products[j].id, similarity)];
        similaritiesToCreate := similaritiesToCreate + [SimilarityRow(products[j].id, products[i].id, similarity)];
        count := count + 2;
      }
    }
    table.rows := similaritiesToCreate;
  }

  /** n products give n(n-1) rows. */
  lemma {:induction false} RowsOfProductCount(ps: seq<Product>, i: nat, j: nat, md: real)
    requires i < |ps| && j <= |ps|
    ensures |RowsOfProduct(ps, i, j, md)| == if j <= i + 1 then 0 else 2 * (j - i - 1)
    decreases j
  {
    if j > i + 1 {
      RowsOfProductCount(ps, i, j - 1, md);
    }
  }

  lemma {:induction false} RowsBeforeCount(ps: seq<Product>, i: nat, md: real)
    requires i <= |ps|
    ensures |RowsBefore(ps, i, md)| == i * (2 * |ps| - i - 1)
  {
    if i > 0 {
      RowsBeforeCount(ps, i - 1, md);
      RowsOfProductCount(ps, i - 1, |ps|, md);
      CountStep(i, |ps|);
    }
  }

  lemma CountStep(i: int, n: int)
    ensures (i - 1) * (2 * n - i) + 2 * (n - i) == i * (2 * n - i - 1)
  {
    calc {
      (i - 1) * (2 * n - i) + 2 * (n - i);
      i * (2 * n - i) - (2 * n - i) + 2 * n - 2 * i;
      i * (2 * n - i) - i;
      i * (2 * n - i - 1);
    }
  }

  lemma SimilarityRowCount(ps: seq<Product>)
    ensures |RowsBefore(ps, |ps|, PriceRange(ps))| == |ps| * (|ps| - 1)
  {
    RowsBeforeCount(ps, |ps|, PriceRange(ps));
  }

  /**
   * The stored rows pair up: each even-indexed row is followed by its mirror image with the
   * same score, and no row relates a product to itself when product ids are distinct.
   */
  predicate Mirrored(rows: seq<SimilarityRow>)
  {
    |rows| % 2 == 0 &&
    forall k :: 0 <= k < |rows| / 2 ==>
      rows[2 * k + 1] == SimilarityRow(rows[2 * k].productB, rows[2 * k].productA, rows[2 * k].similarityScore)
  }

  predicate NoSelfPairs(rows: seq<SimilarityRow>)
  {
    forall k :: 0 <= k < |rows| ==> rows[k].productA != rows[k].productB
  }

  predicate DistinctProducts(ps: seq<Product>)
  {
    forall i, j :: 0 <= i < j < |ps| ==> ps[i].id != ps[j].id
  }

  lemma MirroredAppend(a: seq<SimilarityRow>, b: seq<SimilarityRow>)
    requires Mirrored(a) && Mirrored(b)
    ensures Mirrored(a + b)
  {
    var c := a + b;
    forall k | 0 <= k < |c| / 2
      ensures c[2 * k + 1] == SimilarityRow(c[2 * k].productB, c[2 * k].productA, c[2 * k].similarityScore)
    {
      if k < |a| / 2 {
        assert c[2 * k] == a[2 * k] && c[2 * k + 1] == a[2 * k + 1];
      } else {
        var m := k - |a| / 2;
        assert c[2 * k] == b[2 * m] && c[2 * k + 1] == b[2 * m + 1];
      }
    }
  }

  lemma {:induction false} RowsOfProductShape(ps: seq<Product>, i: nat, j: nat, md: real)
    requires i < |ps| && j <= |ps| && DistinctProducts(ps)
    ensures Mirrored(RowsOfProduct(ps, i, j, md)) && NoSelfPairs(RowsOfProduct(ps, i, j, md))
    decreases j
  {
    if j > i + 1 {
      RowsOfProductShape(ps, i, j - 1, md);
      MirroredAppend(RowsOfProduct(ps, i, j - 1, md), PairRows(ps, i, j - 1, md));
    }
  }

  lemma {:induction false} RowsBeforeShape(ps: seq<Product>, i: nat, md: real)
    requires i <= |ps| && DistinctProducts(ps)
    ensures Mirrored(RowsBefore(ps, i, md)) && NoSelfPairs(RowsBefore(ps, i, md))
  {
    if i > 0 {
      RowsBeforeShape(ps, i - 1, md);
      RowsOfProductShape(ps, i - 1, |ps|, md);
      MirroredAppend(RowsBefore(ps, i - 1, md), RowsOfProduct(ps, i - 1, |ps|, md));
    }
  }

  /** The full batch: n(n-1) rows in mirrored pairs, no self-pairs. */
  lemma SimilarityBatchShape(ps: seq<Product>)
    requires DistinctProducts(ps)
    ensures var rows := RowsBefore(ps, |ps|, PriceRange(ps));
      |rows| == |ps| * (|ps| - 1) && Mirrored(rows) && NoSelfPairs(rows)
  {
    SimilarityRowCount(ps);
    RowsBeforeShape(ps, |ps|, PriceRange(ps));
  }
}

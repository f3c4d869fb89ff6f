// Catalog pricing and review statistics (products/models.py). Money is in cents and price
// multipliers in hundredths, so Decimal arithmetic is exact integer arithmetic here.
module ProductModels {
  import opened Wrappers
  import opened Arith

  /** A weight option: grams and a price multiplier in hundredths (1.00 is 100). */
  datatype Weight = Weight(id: int, grams: int, priceMultiplier: int)

  /** A bean type with its price multiplier in hundredths. */
  datatype BeanType = BeanType(id: int, name: string, priceMultiplier: int)

  /** A review row: only approved reviews count towards a product's statistics. */
  datatype Review = Review(user: int, product: int, rating: int, isApproved: bool)

  /**
   * get_price_for_weight: base price times the weight multiplier, times the bean multiplier when
   * a bean type is given, quantized to cents with ties to even (the default Decimal context).
   * The result is the exact price rounded to the nearest cent.
   */
  function PriceForWeight(basePrice: int, w: Weight, bean: Option<BeanType>): (r: int)
    ensures bean.None? ==> -100 <= 2 * basePrice * w.priceMultiplier - 200 * r <= 100
    ensures bean.Some? ==>
      -10000 <= 2 * basePrice * w.priceMultiplier * bean.value.priceMultiplier - 20000 * r <= 10000
  {
    match bean
    case None => DivHalfEven(basePrice * w.priceMultiplier, 100)
    case Some(b) => DivHalfEven(basePrice * w.priceMultiplier * b.priceMultiplier, 10000)
  }

  /** Multipliers of 1.00 leave the base price unchanged. */
  lemma UnitMultipliersKeepPrice(basePrice: int, w: Weight, bean: Option<BeanType>)
    requires w.priceMultiplier == 100 && (bean.Some? ==> bean.value.priceMultiplier == 100)
    ensures PriceForWeight(basePrice, w, bean) == basePrice
  {
    var r := PriceForWeight(basePrice, w, bean);
    if bean.None? {
      assert -100 <= 200 * basePrice - 200 * r <= 100;
    } else {
      assert -10000 <= 20000 * basePrice - 20000 * r <= 10000;
    }
  }

  /** A non-negative price with non-negative multipliers gives a non-negative price. */
  lemma PriceNonNegative(basePrice: int, w: Weight, bean: Option<BeanType>)
    requires basePrice >= 0 && w.priceMultiplier >= 0 && (bean.Some? ==> bean.value.priceMultiplier >= 0)
    ensures PriceForWeight(basePrice, w, bean) >= 0
  {
    var r := PriceForWeight(basePrice, w, bean);
    if bean.None? {
      NonNegativeProduct(basePrice, w.priceMultiplier);
    } else {
      NonNegativeProduct(basePrice, w.priceMultiplier);
      NonNegativeProduct(basePrice * w.priceMultiplier, bean.value.priceMultiplier);
    }
  }

  lemma NonNegativeProduct(a: int, b: int)
    requires a >= 0 && b >= 0
    ensures a * b >= 0
  {
  }

  /** The first weight with the fewest grams (order_by('grams').first()). */
  function Lightest(weights: seq<Weight>): (i: nat)
    requires weights != []
    ensures i < |weights|
    ensures forall j :: 0 <= j < |weights| ==> weights[i].grams <= weights[j].grams
    ensures forall j :: 0 <= j < i ==> weights[j].grams > weights[i].grams
  {
    if |weights| == 1 then 0
    else
      var i := Lightest(weights[..|weights| - 1]);
      assert forall j :: 0 <= j < |weights| - 1 ==> weights[..|weights| - 1][j] == weights[j];
      if weights[|weights| - 1].grams < weights[i].grams then |weights| - 1 else i
  }

  /** min_price: the price of the lightest available weight, or the base price without weights. */
  function MinPrice(basePrice: int, weights: seq<Weight>): (r: int)
    ensures weights == [] ==> r == basePrice
    ensures weights != [] ==> exists i :: 0 <= i < |weights| && r == PriceForWeight(basePrice, weights[i], None) &&
                                         (forall j :: 0 <= j < |weights| ==> weights[i].grams <= weights[j].grams)
  {
    if weights == [] then basePrice else PriceForWeight(basePrice, weights[Lightest(weights)], None)
  }

  /** The approved ratings of a product's reviews, in order. */
  function ApprovedRatings(reviews: seq<Review>): (r: seq<real>)
    ensures |r| <= |reviews|
  {
    if reviews == [] then []
    else
      var init := ApprovedRatings(reviews[..|reviews| - 1]);
      var last := reviews[|reviews| - 1];
      if last.isApproved then init + [last.rating as real] else init
  }

  /** reviews_count: the number of approved reviews. */
  function ReviewsCount(reviews: seq<Review>): (n: nat)
  {
    if reviews == [] then 0
    else ReviewsCount(reviews[..|reviews| - 1]) + (if reviews[|reviews| - 1].isApproved then 1 else 0)
  }

  /** The count is exactly the number of approved ratings, and no review is counted twice. */
  lemma {:induction false} ReviewsCountMeaning(reviews: seq<Review>)
    ensures ReviewsCount(reviews) == |ApprovedRatings(reviews)|
    ensures ReviewsCount(reviews) <= |reviews|
    ensures ReviewsCount(reviews) == 0 <==> forall i :: 0 <= i < |reviews| ==> !reviews[i].isApproved
  {
    if reviews != [] {
      var init := reviews[..|reviews| - 1];
      ReviewsCountMeaning(init);
      assert forall i :: 0 <= i < |init| ==> init[i] == reviews[i];
    }
  }

  /** Every approved rating lies between lo and hi when every rating does. */
  lemma {:induction false} ApprovedRatingsBounds(reviews: seq<Review>, lo: int, hi: int)
    requires forall i :: 0 <= i < |reviews| ==> lo <= reviews[i].rating <= hi
    ensures forall i :: 0 <= i < |ApprovedRatings(reviews)| ==> lo as real <= ApprovedRatings(reviews)[i] <= hi as real
  {
    if reviews != [] {
      var init := reviews[..|reviews| - 1];
      assert forall i :: 0 <= i < |init| ==> init[i] == reviews[i];
      ApprovedRatingsBounds(init, lo, hi);
    }
  }

  /** average_rating: 0 without approved reviews, otherwise their mean rounded to one decimal. */
  function AverageRating(reviews: seq<Review>): real
  {
    var ratings := ApprovedRatings(reviews);
    if ratings == [] then 0.0 else Round1(Mean(ratings))
  }

  /**
   * With ratings on a 1 to 5 scale the average is 0 exactly when no review is approved, and
   * otherwise stays on the scale.
   */
  lemma AverageRatingBounds(reviews: seq<Review>)
    requires forall i :: 0 <= i < |reviews| ==> 1 <= reviews[i].rating <= 5
    ensures ReviewsCount(reviews) == 0 ==> AverageRating(reviews) == 0.0
    ensures ReviewsCount(reviews) > 0 ==> 1.0 <= AverageRating(reviews) <= 5.0
  {
    ReviewsCountMeaning(reviews);
    var ratings := ApprovedRatings(reviews);
    if ratings != [] {
      ApprovedRatingsBounds(reviews, 1, 5);
      MeanBounds(ratings, 1.0, 5.0);
      Round1OnScale(Mean(ratings), 1, 5);
    }
  }

  /** Rounding to one decimal keeps a value between two whole numbers. */
  lemma Round1OnScale(x: real, lo: int, hi: int)
    requires lo as real <= x <= hi as real
    ensures lo as real <= Round1(x) <= hi as real
  {
    var k := RoundHalfEven(x * 10.0);
    assert Round1(x) == k as real / 10.0;
    assert 10 * lo <= k <= 10 * hi;
  }

  /** ', '.join of the names. */
  function JoinNames(names: seq<string>): (r: string)
  {
    if names == [] then ""
    else if |names| == 1 then names[0]
    else JoinNames(names[..|names| - 1]) + ", " + names[|names| - 1]
  }

  function TotalLength(names: seq<string>): nat
  {
    if names == [] then 0 else TotalLength(names[..|names| - 1]) + |names[|names| - 1]|
  }

  /** countries_display: the names in order, one ", " between neighbours. */
  lemma {:induction false} JoinNamesLength(names: seq<string>)
    requires names != []
    ensures |JoinNames(names)| == TotalLength(names) + 2 * (|names| - 1)
    ensures names[0] <= JoinNames(names)
  {
    if |names| > 1 {
      var init := names[..|names| - 1];
      JoinNamesLength(init);
      assert init[0] == names[0];
      if |init| == 1 {
        assert TotalLength(init) == |names[0]|;
      }
      var j := JoinNames(init);
      assert JoinNames(names) == j + ", " + names[|names| - 1];
      assert j <= JoinNames(names) by {
        assert (j + ", " + names[|names| - 1])[..|j|] == j;
      }
    }
  }
}

// Product reviews (reviews/views.py): one review per user and product, updates by the owner
// only, deletion by the owner or a manager, and the manager's approval toggle.
module Reviews {
  import opened Wrappers
  import opened Text
  import opened AccountModels

  datatype Review = Review(id: int, user: int, product: int, rating: int, comment: string, isApproved: bool)

  /** The posted review form: the rating, if given, and the comment. */
  datatype ReviewForm = ReviewForm(rating: Option<int>, comment: string)

  /** The form is valid when a rating from 1 to 5 is given (the rating field's validators); the comment may be blank. */
  predicate FormValid(f: ReviewForm)
  {
    f.rating.Some? && 1 <= f.rating.value <= 5
  }

  /** The outcome of a review view: a success message, an error message, or a 404. */
  datatype Outcome = Done(message: string) | Denied(message: string) | Missing

  /** The user has reviewed the product. */
  predicate HasReviewed(reviews: seq<Review>, user: int, product: int)
  {
    exists i :: 0 <= i < |reviews| && reviews[i].user == user && reviews[i].product == product
  }

  /** unique_together (user, product): at most one review per user and product. */
  predicate OnePerUserProduct(reviews: seq<Review>)
  {
    forall i, j :: 0 <= i < j < |reviews| ==> reviews[i].user != reviews[j].user || reviews[i].product != reviews[j].product
  }

  predicate ReviewIdsUnique(reviews: seq<Review>)
  {
    forall i, j :: 0 <= i < j < |reviews| ==> reviews[i].id != reviews[j].id
  }

  /** Every stored rating lies from 1 to 5. */
  predicate RatingsInRange(reviews: seq<Review>)
  {
    forall i :: 0 <= i < |reviews| ==> 1 <= reviews[i].rating <= 5
  }

  /** The review with this id, if any. */
  function FindReview(reviews: seq<Review>, id: int): (r: Option<nat>)
    ensures r.Some? ==> r.value < |reviews| && reviews[r.value].id == id
    ensures r.None? ==> forall i :: 0 <= i < |reviews| ==> reviews[i].id != id
  {
    if reviews == [] then None
    else if reviews[|reviews| - 1].id == id then Some(|reviews| - 1)
    else FindReview(reviews[..|reviews| - 1], id)
  }

  /** reviews without the review at index k. */
  function Without(reviews: seq<Review>, k: nat): (r: seq<Review>)
    requires k < |reviews|
    ensures |r| == |reviews| - 1
    ensures forall i :: 0 <= i < |r| ==> r[i] == if i < k then reviews[i] else reviews[i + 1]
  {
    reviews[..k] + reviews[k + 1..]
  }

  /** Removing a review keeps every invariant of the table, and removes only that review. */
  lemma WithoutKeepsInvariants(reviews: seq<Review>, k: nat)
    requires k < |reviews| && ReviewIdsUnique(reviews) && OnePerUserProduct(reviews) && RatingsInRange(reviews)
    ensures var r := Without(reviews, k);
      ReviewIdsUnique(r) && OnePerUserProduct(r) && RatingsInRange(r) &&
      FindReview(r, reviews[k].id).None?
  {
    var r := Without(reviews, k);
    forall i, j | 0 <= i < j < |r|
      ensures r[i].id != r[j].id && (r[i].user != r[j].user || r[i].product != r[j].product)
    {
      var a := if i < k then i else i + 1;
      var b := if j < k then j else j + 1;
      assert r[i] == reviews[a] && r[j] == reviews[b] && a < b;
    }
    forall i | 0 <= i < |r|
      ensures r[i].id != reviews[k].id
    {
      var a := if i < k then i else i + 1;
      assert r[i] == reviews[a] && a != k;
    }
  }

  class ReviewTable {
    var reviews: seq<Review>

    /** Ids are unique, a user reviews a product at most once, and ratings lie from 1 to 5. */
    ghost predicate Valid()
      reads this
    {
      ReviewIdsUnique(reviews) && OnePerUserProduct(reviews) && RatingsInRange(reviews)
    }

    constructor ()
      ensures Valid() && reviews == []
    {
      reviews := [];
    }

    /**
     * add_review: a missing product is a 404; a second review of the same product by the same
     * user is refused and nothing changes; a valid form adds an approved review owned by the
     * user for that product.
     */
    method AddReview(user: User, product: int, products: set<int>, f: ReviewForm, id: int) returns (outcome: Outcome)
      requires Valid() && FindReview(reviews, id).None?
      modifies this
      ensures Valid()
      ensures product !in products ==> outcome == Missing && reviews == old(reviews)
      ensures product in products && HasReviewed(old(reviews), user.id, product) ==>
        outcome == Denied("You have already reviewed this product") && reviews == old(reviews)
      ensures product in products && !HasReviewed(old(reviews), user.id, product) && !FormValid(f) ==>
        outcome == Denied("Please select a rating") && reviews == old(reviews)
      ensures product in products && !HasReviewed(old(reviews), user.id, product) && FormValid(f) ==>
        outcome == Done("Your review has been added!") &&
        reviews == old(reviews) + [Review(id, user.id, product, f.rating.value, Strip(f.comment), true)]
      ensures HasReviewed(reviews, user.id, product) <==> HasReviewed(old(reviews), user.id, product) || outcome.Done?
    {
      if product !in products {
        return Missing;
      }
      if exists i :: 0 <= i < |reviews| && reviews[i].user == user.id && reviews[i].product == product {
        return Denied("You have already reviewed this product");
      }
      if !FormValid(f) {
        return Denied("Please select a rating");
      }
      var before := reviews;
      reviews := reviews + [Review(id, user.id, product, f.rating.value, Strip(f.comment), true)];
      assert forall i :: 0 <= i < |before| ==> reviews[i] == before[i];
      assert reviews[|before|].user == user.id && reviews[|before|].product == product;
      outcome := Done("Your review has been added!");
    }

    /**
     * update_review: the review must exist and belong to the user (otherwise a 404); a valid form
     * replaces its rating and comment.
     */
    method UpdateReview(user: User, reviewId: int, f: ReviewForm) returns (outcome: Outcome)
      requires Valid()
      modifies this
      ensures Valid()
      ensures var k := FindReview(old(reviews), reviewId);
        if k.None? || old(reviews)[k.value].user != user.id then
          outcome == Missing && reviews == old(reviews)
        else if !FormValid(f) then
          outcome == Denied("Please correct the errors in your review") && reviews == old(reviews)
        else
          outcome == Done("Review updated") &&
          reviews == old(reviews)[k.value := old(reviews)[k.value].(rating := f.rating.value, comment := Strip(f.comment))]
      ensures reviews != old(reviews) ==> FindReview(old(reviews), reviewId).Some? && old(reviews)[FindReview(old(reviews), reviewId).value].user == user.id
    {
      var k := FindReview(reviews, reviewId);
      if k.None? || reviews[k.value].user != user.id {
        return Missing;
      }
      if !FormValid(f) {
        return Denied("Please correct the errors in your review");
      }
      var before := reviews;
      reviews := reviews[k.value := reviews[k.value].(rating := f.rating.value, comment := Strip(f.comment))];
      assert forall i :: 0 <= i < |reviews| ==> reviews[i].id == before[i].id && reviews[i].user == before[i].user && reviews[i].product == before[i].product;
      outcome := Done("Review updated");
    }

    /** delete_review: the owner or a manager may delete a review; anyone else is refused. */
    method DeleteReview(user: User, reviewId: int) returns (outcome: Outcome)
      requires Valid()
      modifies this
      ensures Valid()
      ensures var k := FindReview(old(reviews), reviewId);
        if k.None? then
          outcome == Missing && reviews == old(reviews)
        else if old(reviews)[k.value].user != user.id && !IsManager(user) then
          outcome == Denied("Access denied") && reviews == old(reviews)
        else
          outcome == Done("Review deleted") && reviews == Without(old(reviews), k.value)
      ensures outcome.Done? ==> FindReview(reviews, reviewId).None?
    {
      var k := FindReview(reviews, reviewId);
      if k.None? {
        return Missing;
      }
      if reviews[k.value].user != user.id && !IsManager(user) {
        return Denied("Access denied");
      }
      WithoutKeepsInvariants(reviews, k.value);
      reviews := Without(reviews, k.value);
      outcome := Done("Review deleted");
    }

    /** toggle_review_approval: managers only; flips the review's approval. */
    method ToggleApproval(user: User, reviewId: int) returns (outcome: Outcome)
      requires Valid()
      modifies this
      ensures Valid()
      ensures !IsManager(user) ==> outcome == Denied("Access denied") && reviews == old(reviews)
      ensures IsManager(user) && FindReview(old(reviews), reviewId).None? ==> outcome == Missing && reviews == old(reviews)
      ensures IsManager(user) && FindReview(old(reviews), reviewId).Some? ==>
        var k := FindReview(old(reviews), reviewId).value;
        outcome == Done("Review status changed") &&
        reviews == old(reviews)[k := old(reviews)[k].(isApproved := !old(reviews)[k].isApproved)]
    {
      if !IsManager(user) {
        return Denied("Access denied");
      }
      var k := FindReview(reviews, reviewId);
      if k.None? {
        return Missing;
      }
      var before := reviews;
      reviews := reviews[k.value := reviews[k.value].(isApproved := !reviews[k.value].isApproved)];
      assert forall i :: 0 <= i < |reviews| ==> (reviews[i].id == before[i].id && reviews[i].user == before[i].user &&
        reviews[i].product == before[i].product && reviews[i].rating == before[i].rating);
      outcome := Done("Review status changed");
    }
  }

  /** With unique ids, the lookup finds the one review with the id. */
  lemma FindReviewFinds(reviews: seq<Review>, k: nat)
    requires ReviewIdsUnique(reviews) && k < |reviews|
    ensures FindReview(reviews, reviews[k].id) == Some(k)
  {
  }

  /** Toggling the approval twice restores the table. */
  method ToggleTwice(table: ReviewTable, manager: User, reviewId: int)
    requires table.Valid() && IsManager(manager)
    modifies table
    ensures table.reviews == old(table.reviews)
  {
    var k := FindReview(table.reviews, reviewId);
    var first := table.ToggleApproval(manager, reviewId);
    if k.Some? {
      FindReviewFinds(table.reviews, k.value);
    }
    var second := table.ToggleApproval(manager, reviewId);
  }
}

/** Posting, deleting and listing reviews. */
module ReviewService {
  import opened Wrappers
  import opened Seqs
  import opened Model
  import opened ReviewModel
  import opened Store

  /** How `postReview` and `deleteReview` reject. */
  datatype ReviewError =
    | Invalid(missing: set<Field>)   // schema validation failed on these paths
    | DuplicateKey                   // `save` met an existing `_id`
    | NotFoundOrNotAuthor            // no review with that id written by that account

  predicate HasReviewId(reviews: seq<Review>, id: Id)
  {
    exists v :: v in reviews && v.id == id
  }

  /** `postReview(reviewData)`: validate the document and insert it. `freshId` is the
      `_id` Mongoose would generate, used when the data carries none. */
  method PostReview(db: Database, draft: ReviewDraft, freshId: Id, now: int) returns (r: Result<Review, ReviewError>)
    requires db.Valid()
    requires !HasReviewId(db.reviews, freshId)
    modifies db
    ensures db.Valid()
    ensures db.accounts == old(db.accounts) && db.restaurants == old(db.restaurants)
    ensures Create(draft, freshId, now).Failure? ==>
              r == Failure(Invalid(Create(draft, freshId, now).error)) && db.reviews == old(db.reviews)
    ensures Create(draft, freshId, now).Success? && HasReviewId(old(db.reviews), Create(draft, freshId, now).value.id) ==>
              r == Failure(DuplicateKey) && db.reviews == old(db.reviews)
    ensures r.Success? <==> Create(draft, freshId, now).Success? && !HasReviewId(old(db.reviews), Create(draft, freshId, now).value.id)
    ensures r.Success? ==> r.value == Create(draft, freshId, now).value && db.reviews == old(db.reviews) + [r.value]
  {
    var created := Create(draft, freshId, now);
    if created.Failure? {
      return Failure(Invalid(created.error));
    }
    var review := created.value;
    if HasReviewId(db.reviews, review.id) {
      return Failure(DuplicateKey);
    }
    db.reviews := db.reviews + [review];
    r := Success(review);
    assert UniqueReviewIds(db.reviews) by {
      forall i, j | 0 <= i < j < |db.reviews| ensures db.reviews[i].id != db.reviews[j].id {
        if j == |db.reviews| - 1 {
          assert db.reviews[i] in old(db.reviews);
        }
      }
    }
  }

  /** A review is inserted with a generated id whenever the data carries no `_id` and passes
      validation: then the insert cannot collide. */
  lemma PostWithoutIdCannotCollide(reviews: seq<Review>, draft: ReviewDraft, freshId: Id, now: int)
    requires !HasReviewId(reviews, freshId)
    requires draft.id.None? && Create(draft, freshId, now).Success?
    ensures Create(draft, freshId, now).value.id == freshId
    ensures !HasReviewId(reviews, Create(draft, freshId, now).value.id)
  {
  }

  function IsReview(reviewId: Id, accountId: Id): Review -> bool
  {
    (v: Review) => v.id == reviewId && v.author == accountId
  }

  function HasId(reviewId: Id): Review -> bool
  {
    (v: Review) => v.id == reviewId
  }

  /** The reviews after `deleteReview(reviewId, accountId)`: unchanged unless a review with
      that id by that author exists, in which case the review found by id is removed. */
  function AfterDelete(reviews: seq<Review>, reviewId: Id, accountId: Id): (r: seq<Review>)
    ensures multiset(r) <= multiset(reviews)
    ensures |r| == |reviews| - 1 <==> exists v :: v in reviews && v.id == reviewId && v.author == accountId
    ensures |r| != |reviews| - 1 ==> r == reviews
  {
    match FindFirst(IsReview(reviewId, accountId), reviews)
    case None => reviews
    case Some(i) =>
      assert HasId(reviewId)(reviews[i]);
      match FindFirst(HasId(reviewId), reviews)
      case None => reviews
      case Some(j) => RemoveAt(reviews, j)
  }

  /** `deleteReview(reviewId, accountId)`. */
  method DeleteReview(db: Database, reviewId: Id, accountId: Id) returns (r: Result<Review, ReviewError>)
    requires db.Valid()
    modifies db
    ensures db.Valid()
    ensures db.accounts == old(db.accounts) && db.restaurants == old(db.restaurants)
    ensures db.reviews == AfterDelete(old(db.reviews), reviewId, accountId)
    ensures r.Failure? <==> !(exists v :: v in old(db.reviews) && v.id == reviewId && v.author == accountId)
    ensures r.Failure? ==> r.error == NotFoundOrNotAuthor
    ensures r.Success? ==> r.value in old(db.reviews) && r.value.id == reviewId && r.value.author == accountId
  {
    var found := FindFirst(IsReview(reviewId, accountId), db.reviews);
    if found.None? {
      return Failure(NotFoundOrNotAuthor);
    }
    var j := FindFirst(HasId(reviewId), db.reviews);
    assert j.Some? by { assert HasId(reviewId)(db.reviews[found.value]); }
    var deleted := db.reviews[j.value];
    assert deleted == db.reviews[found.value];
    ghost var before := db.reviews;
    db.reviews := RemoveAt(db.reviews, j.value);
    RemoveAtUnique(before, j.value);
    r := Success(deleted);
  }

  /** Removing one review keeps ids unique, drops exactly that review and keeps every other one. */
  lemma RemoveAtUnique(reviews: seq<Review>, j: nat)
    requires j < |reviews| && UniqueReviewIds(reviews)
    ensures UniqueReviewIds(RemoveAt(reviews, j))
    ensures forall v :: v in RemoveAt(reviews, j) <==> v in reviews && v.id != reviews[j].id
  {
    var r := RemoveAt(reviews, j);
    forall v ensures v in r <==> v in reviews && v.id != reviews[j].id {
      if v in r {
        var k :| 0 <= k < |r| && r[k] == v;
        if k < j { assert v == reviews[k]; } else { assert v == reviews[k + 1]; }
      }
      if v in reviews && v.id != reviews[j].id {
        var k :| 0 <= k < |reviews| && reviews[k] == v;
        if k < j { assert r[k] == v; } else { assert r[k - 1] == v; }
      }
    }
  }

  /** Only the author can delete: a review by someone else, or a missing id, leaves the
      collection as it was; the author's delete removes that review and nothing else. */
  lemma DeleteReviewSpec(reviews: seq<Review>, reviewId: Id, accountId: Id)
    requires UniqueReviewIds(reviews)
    ensures (forall v :: v in reviews && v.id == reviewId ==> v.author != accountId) ==>
              AfterDelete(reviews, reviewId, accountId) == reviews
    ensures (exists v :: v in reviews && v.id == reviewId && v.author == accountId) ==>
              |AfterDelete(reviews, reviewId, accountId)| == |reviews| - 1
              && forall v :: v in AfterDelete(reviews, reviewId, accountId) <==> v in reviews && v.id != reviewId
  {
    if exists v :: v in reviews && v.id == reviewId && v.author == accountId {
      var j := FindFirst(HasId(reviewId), reviews);
      var v :| v in reviews && v.id == reviewId && v.author == accountId;
      assert IsReview(reviewId, accountId)(v);
      assert HasId(reviewId)(v);
      RemoveAtUnique(reviews, j.value);
    }
  }

  function ForRestaurant(restaurantId: Id): Review -> bool
  {
    (v: Review) => v.restaurant == restaurantId
  }

  /** `getReviewsByRestaurant(restaurantId)`: that restaurant's reviews, in store order. */
  function GetReviewsByRestaurant(reviews: seq<Review>, restaurantId: Id): (r: seq<Review>)
    ensures forall v :: v in r <==> v in reviews && v.restaurant == restaurantId
  {
    Filter(ForRestaurant(restaurantId), reviews)
  }

  /** Reviews of one restaurant are listed independently of the others' reviews: the listing
      of a concatenation is the concatenation of the listings. */
  lemma ReviewsByRestaurantAppend(a: seq<Review>, b: seq<Review>, restaurantId: Id)
    ensures GetReviewsByRestaurant(a + b, restaurantId)
         == GetReviewsByRestaurant(a, restaurantId) + GetReviewsByRestaurant(b, restaurantId)
  {
    FilterConcat(ForRestaurant(restaurantId), a, b);
  }

  /** A newly posted review shows up at the end of its restaurant's listing. */
  lemma PostedReviewIsListed(reviews: seq<Review>, v: Review)
    ensures GetReviewsByRestaurant(reviews + [v], v.restaurant)
         == GetReviewsByRestaurant(reviews, v.restaurant) + [v]
  {
    ReviewsByRestaurantAppend(reviews, [v], v.restaurant);
    assert Filter(ForRestaurant(v.restaurant), [v]) == [v] by {
      assert [v][1..] == [];
    }
  }
}

/** The route handlers: translating request data for the services and mapping
    service outcomes to responses. The caller's account id is a parameter. */
module Backend {
  import opened Wrappers
  import opened Seqs
  import opened Js
  import opened Model
  import opened ReviewModel
  import opened Store
  import opened Http
  import opened RestaurantService
  import AccountService
  import ReviewService

  // ----- GET /complexes/:complexId/restaurants -----

  /** The query-string parameters the restaurant listing reads, each absent or a string. */
  datatype QueryParams = QueryParams(
    name: Option<string>,
    minRating: Option<string>,
    cuisine: Option<string>,
    delivery: Option<string>,
    price: Option<string>,
    acceptedPayments: Option<string>,
    nutritionTypes: Option<string>,
    hours: Option<string>,
    sortField: Option<string>,
    sortOrder: Option<string>)

  /** A truthy parameter that `JSON.parse` (`parseJson`) rejects. */
  predicate Malformed(o: Option<string>, parseJson: string -> Option<Json>)
  {
    StringTruthy(o) && parseJson(o.value).None?
  }

  predicate AnyMalformed(p: QueryParams, parseJson: string -> Option<Json>)
  {
    Malformed(p.acceptedPayments, parseJson) || Malformed(p.nutritionTypes, parseJson) || Malformed(p.hours, parseJson)
  }

  /** A truthy parameter, kept as given; an absent or empty one is dropped. */
  function Kept(o: Option<string>): (r: Option<string>)
    ensures r.Some? <==> StringTruthy(o)
    ensures r.Some? ==> r == o
  {
    if StringTruthy(o) then o else None
  }

  /** A truthy JSON parameter, parsed. */
  function Parsed(o: Option<string>, parseJson: string -> Option<Json>): (r: Option<Json>)
    requires !Malformed(o, parseJson)
    ensures r.Some? <==> StringTruthy(o)
    ensures r.Some? ==> parseJson(o.value) == r
  {
    if StringTruthy(o) then parseJson(o.value) else None
  }

  /** The `filters` object the handler builds when no JSON parameter is malformed;
      `parseFloat` stands for JavaScript's `parseFloat`. */
  function FiltersOf(p: QueryParams, parseFloat: string -> Number, parseJson: string -> Option<Json>): (f: Filters)
    requires !AnyMalformed(p, parseJson)
    ensures f.delivery.Some? <==> StringTruthy(p.delivery)
    ensures f.delivery == Some(true) <==> p.delivery == Some("true")
    ensures f.avgRating.Some? <==> StringTruthy(p.minRating)
    ensures f.avgRating.Some? ==> f.avgRating.value == parseFloat(p.minRating.value)
  {
    Filters(
      Kept(p.name),
      if StringTruthy(p.minRating) then Some(parseFloat(p.minRating.value)) else None,
      Kept(p.cuisine),
      if StringTruthy(p.delivery) then Some(p.delivery.value == "true") else None,
      Kept(p.price),
      Parsed(p.acceptedPayments, parseJson),
      Parsed(p.nutritionTypes, parseJson),
      Parsed(p.hours, parseJson))
  }

  /** The parameter named in the 400: the first malformed one in the order checked. */
  function FirstMalformed(p: QueryParams, parseJson: string -> Option<Json>): (field: string)
    requires AnyMalformed(p, parseJson)
    ensures field == "accepted_payments" <==> Malformed(p.acceptedPayments, parseJson)
    ensures field == "nutrition_types" <==>
              !Malformed(p.acceptedPayments, parseJson) && Malformed(p.nutritionTypes, parseJson)
    ensures field == "hours" <==>
              !Malformed(p.acceptedPayments, parseJson) && !Malformed(p.nutritionTypes, parseJson)
  {
    if Malformed(p.acceptedPayments, parseJson) then "accepted_payments"
    else if Malformed(p.nutritionTypes, parseJson) then "nutrition_types"
    else "hours"
  }

  /** The handler's filter extraction: conditional assignments into `filters`, with an early
      return naming the JSON parameter that fails to parse. */
  method ExtractFilters(p: QueryParams, parseFloat: string -> Number, parseJson: string -> Option<Json>)
    returns (r: Result<Filters, string>)
    ensures r.Failure? <==> AnyMalformed(p, parseJson)
    ensures r.Failure? ==> r.error == FirstMalformed(p, parseJson)
    ensures r.Success? ==> r.value == FiltersOf(p, parseFloat, parseJson)
  {
    var f := NoFilters;
    if StringTruthy(p.name) {
      f := f.(name := p.name);
    }
    if StringTruthy(p.minRating) {
      f := f.(avgRating := Some(parseFloat(p.minRating.value)));
    }
    if StringTruthy(p.cuisine) {
      f := f.(cuisine := p.cuisine);
    }
    if StringTruthy(p.delivery) {
      f := f.(delivery := Some(p.delivery.value == "true"));
    }
    if StringTruthy(p.price) {
      f := f.(price := p.price);
    }
    if StringTruthy(p.acceptedPayments) {
      var j := parseJson(p.acceptedPayments.value);
      if j.None? {
        return Failure("accepted_payments");
      }
      f := f.(acceptedPayments := j);
    }
    if StringTruthy(p.nutritionTypes) {
      var j := parseJson(p.nutritionTypes.value);
      if j.None? {
        return Failure("nutrition_types");
      }
      f := f.(nutritionTypes := j);
    }
    if StringTruthy(p.hours) {
      var j := parseJson(p.hours.value);
      if j.None? {
        return Failure("hours");
      }
      f := f.(hours := j);
    }
    r := Success(f);
  }

  /** An absent or empty parameter adds no key to the filters. */
  lemma EmptyParamsAddNothing(p: QueryParams, parseFloat: string -> Number, parseJson: string -> Option<Json>)
    requires !StringTruthy(p.name) && !StringTruthy(p.minRating) && !StringTruthy(p.cuisine)
    requires !StringTruthy(p.delivery) && !StringTruthy(p.price)
    requires !StringTruthy(p.acceptedPayments) && !StringTruthy(p.nutritionTypes) && !StringTruthy(p.hours)
    ensures FiltersOf(p, parseFloat, parseJson) == NoFilters
  {
  }

  /** `sortOrder || "asc"`. */
  function SortOrderOrDefault(sortOrder: Option<string>): (s: string)
    ensures !StringTruthy(sortOrder) ==> s == "asc"
    ensures StringTruthy(sortOrder) ==> s == sortOrder.value
  {
    if StringTruthy(sortOrder) then sortOrder.value else "asc"
  }

  /** The handler for GET `/complexes/:complexId/restaurants`. `serviceCalled` records
      whether `getRestaurants` was reached. */
  method GetComplexRestaurants(restaurants: seq<Restaurant>, complexId: Id, p: QueryParams,
                               parseFloat: string -> Number, parseJson: string -> Option<Json>)
    returns (resp: Response, ghost serviceCalled: bool)
    ensures serviceCalled <==> !AnyMalformed(p, parseJson)
    ensures AnyMalformed(p, parseJson) ==>
              resp == Response(400, Error("Invalid format for " + FirstMalformed(p, parseJson)))
    ensures !AnyMalformed(p, parseJson) && !HoursPatternsAreStrings(FiltersOf(p, parseFloat, parseJson)) ==>
              resp == Response(500, Error("Error fetching/filtering/sorting restaurants in complex"))
    ensures resp.status == 200 <==>
              !AnyMalformed(p, parseJson) && HoursPatternsAreStrings(FiltersOf(p, parseFloat, parseJson))
    ensures resp.status == 200 ==>
              && resp.body.RestaurantList?
              && (forall x :: x in resp.body.restaurants <==>
                    x in restaurants && Admits(x, FiltersOf(p, parseFloat, parseJson), Some(complexId)))
              && multiset(resp.body.restaurants)
                 == multiset(Filter(AdmitsOf(FiltersOf(p, parseFloat, parseJson), Some(complexId)), restaurants))
              && SortedBy(resp.body.restaurants, SortOptions(p.sortField, SortOrderOrDefault(p.sortOrder)))
  {
    var filters := ExtractFilters(p, parseFloat, parseJson);
    if filters.Failure? {
      serviceCalled := false;
      return Response(400, Error("Invalid format for " + filters.error)), serviceCalled;
    }
    serviceCalled := true;
    var found := GetRestaurants(restaurants, filters.value, p.sortField,
                                Some(SortOrderOrDefault(p.sortOrder)), Some(complexId));
    if found.Failure? {
      resp := Response(500, Error("Error fetching/filtering/sorting restaurants in complex"));
    } else {
      resp := Response(200, RestaurantList(found.value));
    }
  }

  /** A request without a sort order lists in ascending order. */
  lemma MissingSortOrderAscends(sortField: Option<string>)
    ensures SortOptions(sortField, SortOrderOrDefault(None)).ascending
  {
  }

  // ----- reviews -----

  /** `{ ...req.body, author: req.user._id }`. */
  function WithAuthor(body: ReviewDraft, userId: Id): (d: ReviewDraft)
    ensures d.author == Some(userId)
    ensures d.(author := body.author) == body
  {
    body.(author := Some(userId))
  }

  /** A review posted through the route is written by the caller, whatever author the body
      names, and never fails validation for lack of an author. */
  lemma PostedReviewAuthoredByCaller(body: ReviewDraft, userId: Id, freshId: Id, now: int)
    ensures Author !in ReviewModel.Missing(WithAuthor(body, userId))
    ensures Create(WithAuthor(body, userId), freshId, now).Success? ==>
              Create(WithAuthor(body, userId), freshId, now).value.author == userId
  {
  }

  /** POST `/review`. */
  method PostReviewRoute(db: Database, userId: Id, body: ReviewDraft, freshId: Id, now: int)
    returns (resp: Response)
    requires db.Valid()
    requires !ReviewService.HasReviewId(db.reviews, freshId)
    modifies db
    ensures db.Valid()
    ensures db.accounts == old(db.accounts) && db.restaurants == old(db.restaurants)
    ensures resp.status == 201 || resp == Response(500, Error("Error posting review"))
    ensures resp.status == 201 <==>
              && Create(WithAuthor(body, userId), freshId, now).Success?
              && !ReviewService.HasReviewId(old(db.reviews), Create(WithAuthor(body, userId), freshId, now).value.id)
    ensures resp.status == 201 ==>
              && resp.body.ReviewDoc?
              && resp.body.review.author == userId
              && db.reviews == old(db.reviews) + [resp.body.review]
    ensures resp.status != 201 ==> db.reviews == old(db.reviews)
  {
    var r := ReviewService.PostReview(db, WithAuthor(body, userId), freshId, now);
    if r.Success? {
      resp := Response(201, ReviewDoc(r.value));
    } else {
      resp := Response(500, Error("Error posting review"));
    }
  }

  /** DELETE `/review/:reviewId`. */
  method DeleteReviewRoute(db: Database, userId: Id, reviewId: Id) returns (resp: Response)
    requires db.Valid()
    modifies db
    ensures db.Valid()
    ensures db.accounts == old(db.accounts) && db.restaurants == old(db.restaurants)
    ensures db.reviews == ReviewService.AfterDelete(old(db.reviews), reviewId, userId)
    ensures resp == Response(200, Message("Review deleted successfully")) <==>
              exists v :: v in old(db.reviews) && v.id == reviewId && v.author == userId
    ensures resp.status != 200 ==> resp == Response(500, Error("Error deleting review"))
  {
    var r := ReviewService.DeleteReview(db, reviewId, userId);
    if r.Success? {
      resp := Response(200, Message("Review deleted successfully"));
    } else {
      resp := Response(500, Error("Error deleting review"));
    }
  }

  // ----- account -----

  /** GET `/account/reviews`: the caller's reviews. */
  function AccountReviewsRoute(reviews: seq<Review>, userId: Id): (resp: Response)
    ensures resp.status == 200 && resp.body.ReviewList?
    ensures forall v :: v in resp.body.reviews <==> v in reviews && v.author == userId
  {
    Response(200, ReviewList(AccountService.GetAccountReviews(reviews, userId)))
  }

  /** GET `/account/favorites`: 200 with the favourite restaurants, 500 without an account. */
  function FavoritesRoute(accounts: seq<Account>, restaurants: seq<Restaurant>, userId: Id): (resp: Response)
    ensures resp.status == 200 <==> AccountService.AccountIndex(accounts, userId).Some?
    ensures resp.status != 200 ==> resp == Response(500, Error("Error fetching favorite restaurants"))
    ensures resp.status == 200 ==>
              && resp.body.Favorites?
              && forall x :: x in resp.body.favorites <==>
                   x in restaurants && x.id in accounts[AccountService.AccountIndex(accounts, userId).value].favorites
  {
    match AccountService.GetFavoriteRestaurants(accounts, restaurants, userId)
    case Success(favorites) => Response(200, Favorites(favorites))
    case Failure(_) => Response(500, Error("Error fetching favorite restaurants"))
  }

  /** POST `/account/favorites/:restaurantId`: 201 when the account exists, else 500. */
  method AddFavoriteRoute(db: Database, userId: Id, restaurantId: Id) returns (resp: Response)
    requires db.Valid()
    modifies db
    ensures db.Valid()
    ensures db.accounts == AccountService.UpdateFavorites(old(db.accounts), userId, restaurantId, true)
    ensures db.reviews == old(db.reviews) && db.restaurants == old(db.restaurants)
    ensures resp.status == 201 <==> AccountService.AccountIndex(old(db.accounts), userId).Some?
    ensures resp.status == 201 ==>
              resp.body == AccountMessage("Restaurant added to favorites",
                                          db.accounts[AccountService.AccountIndex(old(db.accounts), userId).value])
    ensures resp.status != 201 ==> resp == Response(500, Error("Error adding restaurant to favorites"))
  {
    var r := AccountService.AddFavoriteRestaurant(db, userId, restaurantId);
    if r.Success? {
      resp := Response(201, AccountMessage("Restaurant added to favorites", r.value));
    } else {
      resp := Response(500, Error("Error adding restaurant to favorites"));
    }
  }

  /** DELETE `/account/favorites/:restaurantId`: 204 when the account exists, else 500.
      A 204 response carries no body, so the message and account are not sent. */
  method RemoveFavoriteRoute(db: Database, userId: Id, restaurantId: Id) returns (resp: Response)
    requires db.Valid()
    modifies db
    ensures db.Valid()
    ensures db.accounts == AccountService.UpdateFavorites(old(db.accounts), userId, restaurantId, false)
    ensures db.reviews == old(db.reviews) && db.restaurants == old(db.restaurants)
    ensures resp == Response(204, Empty) <==> AccountService.AccountIndex(old(db.accounts), userId).Some?
    ensures resp.status != 204 ==> resp == Response(500, Error("Error removing restaurant from favorites"))
  {
    var r := AccountService.RemoveFavoriteRestaurant(db, userId, restaurantId);
    if r.Success? {
      resp := Response(204, Empty);
    } else {
      resp := Response(500, Error("Error removing restaurant from favorites"));
    }
  }

  /** DELETE `/account/delete`: always 204, with the account and its reviews gone. */
  method DeleteAccountRoute(db: Database, userId: Id) returns (resp: Response)
    requires db.Valid()
    modifies db
    ensures db.Valid()
    ensures resp == Response(204, Empty)
    ensures db.accounts == AccountService.AccountsWithout(old(db.accounts), userId)
    ensures db.reviews == AccountService.ReviewsWithout(old(db.reviews), userId)
    ensures db.restaurants == old(db.restaurants)
  {
    AccountService.DeleteAccount(db, userId);
    resp := Response(204, Empty);
  }

  // ----- GET /restaurant/:id -----

  /** The route as written: `getRestaurantWithReviews` is not among the service's
      exports, so calling it throws before any promise exists and Express answers 500. */
  function RestaurantRouteAsWritten(restaurants: seq<Restaurant>, reviews: seq<Review>, id: Id): (resp: Response)
    ensures resp.status == 500 && !resp.body.RestaurantPage?
  {
    Response(500, ErrorPage)
  }

  /** Even a restaurant that exists cannot be fetched. */
  lemma RestaurantRouteAsWrittenFails(restaurants: seq<Restaurant>, reviews: seq<Review>, id: Id)
    requires GetRestaurantById(restaurants, id).Some?
    ensures RestaurantRouteAsWritten(restaurants, reviews, id).status == 500
    ensures RestaurantRoute(restaurants, reviews, id).status == 200
  {
  }

  /** The route as intended: the restaurant found by id with its reviews, or 404. */
  function RestaurantRoute(restaurants: seq<Restaurant>, reviews: seq<Review>, id: Id): (resp: Response)
    ensures resp.status == 404 <==> forall x :: x in restaurants ==> x.id != id
    ensures resp.status == 404 ==> resp.body == Text("Restaurant not found")
    ensures resp.status != 404 ==>
              && resp.status == 200
              && resp.body.RestaurantPage?
              && resp.body.restaurant in restaurants && resp.body.restaurant.id == id
              && forall v :: v in resp.body.reviews <==> v in reviews && v.restaurant == id
  {
    match GetRestaurantById(restaurants, id)
    case None => Response(404, Text("Restaurant not found"))
    case Some(x) => Response(200, RestaurantPage(x, ReviewService.GetReviewsByRestaurant(reviews, id)))
  }
}

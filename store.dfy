/** The document collections the services read and write. */
module Store {
  import opened Model
  import opened ReviewModel

  predicate UniqueAccountIds(s: seq<Account>)
  {
    forall i, j :: 0 <= i < j < |s| ==> s[i].id != s[j].id
  }

  predicate UniqueEmails(s: seq<Account>)
  {
    forall i, j :: 0 <= i < j < |s| ==> s[i].email != s[j].email
  }

  predicate UniqueReviewIds(s: seq<Review>)
  {
    forall i, j :: 0 <= i < j < |s| ==> s[i].id != s[j].id
  }

  predicate UniqueRestaurantIds(s: seq<Restaurant>)
  {
    forall i, j :: 0 <= i < j < |s| ==> s[i].id != s[j].id
  }

  /** The database: three collections in natural (insertion) order. */
  class Database {
    var accounts: seq<Account>
    var reviews: seq<Review>
    var restaurants: seq<Restaurant>

    /** `_id` is unique in every collection; registration keeps e-mails unique. */
    ghost predicate Valid()
      reads this
    {
      && UniqueAccountIds(accounts)
      && UniqueEmails(accounts)
      && UniqueReviewIds(reviews)
      && UniqueRestaurantIds(restaurants)
    }

    constructor (restaurants: seq<Restaurant>)
      requires UniqueRestaurantIds(restaurants)
      ensures Valid()
      ensures this.accounts == [] && this.reviews == [] && this.restaurants == restaurants
    {
      this.accounts := [];
      this.reviews := [];
      this.restaurants := restaurants;
    }
  }
}

/** Account queries, favourites and account deletion. */
module AccountService {
  import opened Wrappers
  import opened Seqs
  import opened Model
  import opened ReviewModel
  import opened Store

  /** `findById` resolved to `null`, so reading `.favorites` threw. */
  datatype ServiceError = AccountNotFound

  /** The position of the account with that id (`findById`). */
  function AccountIndex(accounts: seq<Account>, id: Id): (r: Option<nat>)
    ensures r.Some? ==> r.value < |accounts| && accounts[r.value].id == id
    ensures r.None? ==> forall a :: a in accounts ==> a.id != id
  {
    FindFirst((a: Account) => a.id == id, accounts)
  }

  // ----- favourites as list operations -----

  /** `if (!favorites.includes(id)) favorites.push(id)`. */
  function AddFavorite(favorites: seq<Id>, id: Id): (r: seq<Id>)
    ensures |favorites| <= |r| <= |favorites| + 1 && r[..|favorites|] == favorites
    ensures forall x :: x in r <==> x in favorites || x == id
  {
    if id in favorites then favorites else favorites + [id]
  }

  function IsNot(id: Id): Id -> bool
  {
    f => f != id
  }

  /** `favorites.filter((fav) => fav.toString() !== id)`. */
  function RemoveFavorite(favorites: seq<Id>, id: Id): (r: seq<Id>)
    ensures forall x :: x in r <==> x in favorites && x != id
    ensures multiset(r) <= multiset(favorites)
  {
    Filter(IsNot(id), favorites)
  }

  /** Adding a favourite that is already present changes nothing; adding twice is adding once. */
  lemma AddFavoriteIdempotent(favorites: seq<Id>, id: Id)
    ensures id in favorites ==> AddFavorite(favorites, id) == favorites
    ensures AddFavorite(AddFavorite(favorites, id), id) == AddFavorite(favorites, id)
  {
  }

  /** Adding an absent favourite appends it: the earlier entries keep their places. */
  lemma AddFavoriteAppends(favorites: seq<Id>, id: Id)
    requires id !in favorites
    ensures |AddFavorite(favorites, id)| == |favorites| + 1
    ensures AddFavorite(favorites, id)[..|favorites|] == favorites
    ensures AddFavorite(favorites, id)[|favorites|] == id
  {
  }

  /** A duplicate-free favourites list stays duplicate-free. */
  lemma AddFavoriteNoDuplicates(favorites: seq<Id>, id: Id)
    requires NoDuplicates(favorites)
    ensures NoDuplicates(AddFavorite(favorites, id))
  {
    var r := AddFavorite(favorites, id);
    if id !in favorites {
      forall i, j | 0 <= i < j < |r| ensures r[i] != r[j] {
        if j == |favorites| { assert r[i] == favorites[i]; }
      }
    }
  }

  /** Removal drops every occurrence of the id and keeps every other entry, each as
      often as before. */
  lemma RemoveFavoriteCounts(favorites: seq<Id>, id: Id, x: Id)
    ensures id !in RemoveFavorite(favorites, id)
    ensures x != id ==> multiset(RemoveFavorite(favorites, id))[x] == multiset(favorites)[x]
  {
    FilterCount(IsNot(id), favorites, x);
  }

  /** Removal keeps the order of the remaining entries: it works piecewise. */
  lemma RemoveFavoriteKeepsOrder(a: seq<Id>, b: seq<Id>, id: Id)
    ensures RemoveFavorite(a + b, id) == RemoveFavorite(a, id) + RemoveFavorite(b, id)
  {
    FilterConcat(IsNot(id), a, b);
  }

  /** Removing an id that is not a favourite leaves the list as it was. */
  lemma RemoveAbsentFavorite(favorites: seq<Id>, id: Id)
    requires id !in favorites
    ensures RemoveFavorite(favorites, id) == favorites
  {
    FilterKeepsAll(IsNot(id), favorites);
  }

  /** The accounts after one account's favourites are updated, with the restaurant
      added when `add` holds and removed otherwise. */
  function UpdateFavorites(accounts: seq<Account>, accountId: Id, restaurantId: Id, add: bool): seq<Account>
  {
    match AccountIndex(accounts, accountId)
    case None => accounts
    case Some(i) =>
      var a := accounts[i];
      accounts[i := a.(favorites := if add then AddFavorite(a.favorites, restaurantId)
                                    else RemoveFavorite(a.favorites, restaurantId))]
  }

  /** Rewriting favourites keeps ids and e-mails, so the store stays valid. */
  lemma UpdateFavoritesValid(accounts: seq<Account>, accountId: Id, restaurantId: Id, add: bool)
    requires UniqueAccountIds(accounts) && UniqueEmails(accounts)
    ensures var r := UpdateFavorites(accounts, accountId, restaurantId, add);
            && |r| == |accounts|
            && (forall i :: 0 <= i < |r| ==> r[i].id == accounts[i].id && r[i].email == accounts[i].email)
            && UniqueAccountIds(r) && UniqueEmails(r)
  {
  }

  /** `addFavoriteRestaurant(accountId, restaurantId)`. */
  method AddFavoriteRestaurant(db: Database, accountId: Id, restaurantId: Id) returns (r: Result<Account, ServiceError>)
    requires db.Valid()
    modifies db
    ensures db.Valid()
    ensures db.accounts == UpdateFavorites(old(db.accounts), accountId, restaurantId, true)
    ensures db.reviews == old(db.reviews) && db.restaurants == old(db.restaurants)
    ensures r.Failure? <==> AccountIndex(old(db.accounts), accountId).None?
    ensures r.Success? ==> r.value == db.accounts[AccountIndex(old(db.accounts), accountId).value]
  {
    UpdateFavoritesValid(db.accounts, accountId, restaurantId, true);
    var found := AccountIndex(db.accounts, accountId);
    if found.None? {
      return Failure(AccountNotFound);
    }
    var i := found.value;
    var account := db.accounts[i];
    if restaurantId !in account.favorites {
      account := account.(favorites := account.favorites + [restaurantId]);
      db.accounts := db.accounts[i := account];
    }
    r := Success(account);
  }

  /** `removeFavoriteRestaurant(accountId, restaurantId)`. */
  method RemoveFavoriteRestaurant(db: Database, accountId: Id, restaurantId: Id) returns (r: Result<Account, ServiceError>)
    requires db.Valid()
    modifies db
    ensures db.Valid()
    ensures db.accounts == UpdateFavorites(old(db.accounts), accountId, restaurantId, false)
    ensures db.reviews == old(db.reviews) && db.restaurants == old(db.restaurants)
    ensures r.Failure? <==> AccountIndex(old(db.accounts), accountId).None?
    ensures r.Success? ==> r.value == db.accounts[AccountIndex(old(db.accounts), accountId).value]
  {
    UpdateFavoritesValid(db.accounts, accountId, restaurantId, false);
    var found := AccountIndex(db.accounts, accountId);
    if found.None? {
      return Failure(AccountNotFound);
    }
    var i := found.value;
    var account := db.accounts[i];
    account := account.(favorites := RemoveFavorite(account.favorites, restaurantId));
    db.accounts := db.accounts[i := account];
    r := Success(account);
  }

  // ----- queries -----

  function ByAuthor(author: Id): Review -> bool
  {
    (v: Review) => v.author == author
  }

  /** `getAccountReviews(accountId)`: the reviews written by the account, in store order. */
  function GetAccountReviews(reviews: seq<Review>, accountId: Id): (r: seq<Review>)
    ensures forall v :: v in r <==> v in reviews && v.author == accountId
  {
    Filter(ByAuthor(accountId), reviews)
  }

  function InFavorites(favorites: seq<Id>): Restaurant -> bool
  {
    (x: Restaurant) => x.id in favorites
  }

  /** `getFavoriteRestaurants(accountId)`: the restaurants whose id is among the
      account's favourites, in store order. */
  function GetFavoriteRestaurants(accounts: seq<Account>, restaurants: seq<Restaurant>, accountId: Id)
    : (r: Result<seq<Restaurant>, ServiceError>)
    ensures r.Failure? <==> AccountIndex(accounts, accountId).None?
    ensures r.Success? ==> forall x :: x in r.value <==>
              x in restaurants && x.id in accounts[AccountIndex(accounts, accountId).value].favorites
  {
    match AccountIndex(accounts, accountId)
    case None => Failure(AccountNotFound)
    case Some(i) => Success(Filter(InFavorites(accounts[i].favorites), restaurants))
  }

  /** Each favourite restaurant appears at most once, even if listed twice among the favourites. */
  lemma FavoriteRestaurantsDistinct(accounts: seq<Account>, restaurants: seq<Restaurant>, accountId: Id)
    requires UniqueRestaurantIds(restaurants)
    requires GetFavoriteRestaurants(accounts, restaurants, accountId).Success?
    ensures NoDuplicates(GetFavoriteRestaurants(accounts, restaurants, accountId).value)
  {
    var i := AccountIndex(accounts, accountId).value;
    assert NoDuplicates(restaurants) by {
      forall a, b | 0 <= a < b < |restaurants| ensures restaurants[a] != restaurants[b] {
        assert restaurants[a].id != restaurants[b].id;
      }
    }
    FilterNoDuplicates(InFavorites(accounts[i].favorites), restaurants);
  }

  // ----- deletion -----

  function NotByAuthor(author: Id): Review -> bool
  {
    (v: Review) => v.author != author
  }

  /** The accounts after `findByIdAndDelete(accountId)`. */
  function AccountsWithout(accounts: seq<Account>, accountId: Id): (r: seq<Account>)
    ensures multiset(r) <= multiset(accounts)
    ensures |r| == |accounts| - 1 <==> exists a :: a in accounts && a.id == accountId
    ensures (forall a :: a in accounts ==> a.id != accountId) ==> r == accounts
  {
    match AccountIndex(accounts, accountId)
    case None => accounts
    case Some(i) => RemoveAt(accounts, i)
  }

  /** The reviews after `deleteMany({ author: accountId })`. */
  function ReviewsWithout(reviews: seq<Review>, accountId: Id): (r: seq<Review>)
    ensures multiset(r) <= multiset(reviews)
    ensures forall v :: v in r ==> v.author != accountId
  {
    Filter(NotByAuthor(accountId), reviews)
  }

  /** After deletion the account is gone and every other account is kept, in order. */
  lemma AccountsWithoutSpec(accounts: seq<Account>, accountId: Id)
    requires UniqueAccountIds(accounts)
    ensures forall a :: a in AccountsWithout(accounts, accountId) <==> a in accounts && a.id != accountId
    ensures UniqueAccountIds(AccountsWithout(accounts, accountId))
    ensures UniqueEmails(accounts) ==> UniqueEmails(AccountsWithout(accounts, accountId))
  {
    var r := AccountsWithout(accounts, accountId);
    match AccountIndex(accounts, accountId)
    case None =>
    case Some(i) =>
      forall a ensures a in r <==> a in accounts && a.id != accountId {
        if a in r {
          var k :| 0 <= k < |r| && r[k] == a;
          if k < i { assert a == accounts[k]; } else { assert a == accounts[k + 1]; }
        }
        if a in accounts && a.id != accountId {
          var k :| 0 <= k < |accounts| && accounts[k] == a;
          assert k != i;
          if k < i { assert r[k] == a; } else { assert r[k - 1] == a; }
        }
      }
  }

  /** After deletion no review by the account remains, and the other authors'
      reviews are all kept, in order. */
  lemma ReviewsWithoutSpec(reviews: seq<Review>, accountId: Id)
    ensures forall v :: v in ReviewsWithout(reviews, accountId) <==> v in reviews && v.author != accountId
    ensures (forall v :: v in reviews ==> v.author != accountId) ==> ReviewsWithout(reviews, accountId) == reviews
  {
    if forall v :: v in reviews ==> v.author != accountId {
      FilterKeepsAll(NotByAuthor(accountId), reviews);
    }
  }

  /** `deleteAccount(accountId)`: the account, then its reviews. It succeeds whether or not
      the account exists. */
  method DeleteAccount(db: Database, accountId: Id)
    requires db.Valid()
    modifies db
    ensures db.Valid()
    ensures db.accounts == AccountsWithout(old(db.accounts), accountId)
    ensures db.reviews == ReviewsWithout(old(db.reviews), accountId)
    ensures db.restaurants == old(db.restaurants)
  {
    AccountsWithoutSpec(db.accounts, accountId);
    db.accounts := AccountsWithout(db.accounts, accountId);
    ghost var before := db.reviews;
    db.reviews := ReviewsWithout(db.reviews, accountId);
    assert UniqueReviewIds(db.reviews) by {
      FilterUniqueReviewIds(NotByAuthor(accountId), before);
    }
  }

  /** Selecting reviews keeps their ids unique. */
  lemma FilterUniqueReviewIds(p: Review -> bool, s: seq<Review>)
    requires UniqueReviewIds(s)
    ensures UniqueReviewIds(Filter(p, s))
  {
    var id := (v: Review) => v.id;
    assert UniqueBy(s, id);
    FilterUniqueBy(p, s, id);
    assert UniqueBy(Filter(p, s), id);
  }
}

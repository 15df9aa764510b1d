# PolyEats backend, modelled in Dafny

PolyEats is a campus food-review service. Its Express backend keeps four document
collections: accounts, complexes, restaurants and reviews. It lists a complex's
restaurants under optional filters and a sort, stores reviews with schema validation,
keeps a list of favourite restaurants on each account, and registers and logs in users
with hashed passwords and bearer tokens. Uploaded pictures go through a file-type
filter and a HEIC-to-JPEG rewrite.

This project models that backend over in-memory collections and proves properties of
the model. The modules are:

- `Wrappers`, `Seqs`, `Text`, `Js`: generic helpers. They cover `Option`/`Result`, filtering and first-match search, the JavaScript string operations the code calls (`toLowerCase`, `indexOf`, `replace`, `trim`, `split`), and parsed JSON with JavaScript truthiness.
- `Model`, `ReviewModel`: the restaurant and account records, and the review schema (required fields, trimming, the date default).
- `Store`: the database as a class holding three collections, with the uniqueness invariant `Valid()`.
- `RestaurantService`: the query builder of `getRestaurants` as imperative map updates.
  - What a restaurant must satisfy to match the finished query (`Matches`).
  - A reference meaning of the filters (`Admits`), and the proof that the two agree.
  - The sort order of the store.
- `AccountService`, `ReviewService`: the service functions. Those that change the store are methods on `Store.Database`; the queries are functions.
- `Auth`: bearer-token extraction, registration and login. `bcrypt`, `jwt.sign` and `jwt.verify` are function parameters.
- `Upload`: node's `path.extname`/`basename`, the stored file name, `fileFilter`, and `convertHeicToJpeg` on a mutable file record.
- `Http`, `Backend`: responses, and the route handlers.
  - The handlers translate query parameters, override the review author and map service outcomes to status codes.
  - The caller's account id is a parameter: `authenticateUser` is never mounted in `backend.js`, so nothing sets `req.user`.

Where the code and the program's own comments or front end suggest otherwise, the model follows the code:

- The `hours` filter is applied as a case-insensitive regular expression per day (`restaurant-service.js:50`). The comment's example `{"M": true}` (`backend.js:206`) would therefore make the store reject the query. The model fails such a query (the service rejects, and the route answers 500).
- Review ratings are not bounded to 1–5 by the schema. Only the front end's number input sets `min="1"` and `max="5"` (`Reviews.jsx:183-184`).
- A login with an unknown e-mail and one with a wrong password both get the same 401 "Unauthorized".

## Model

| member | source | states |
|---|---|---|
| RestaurantService.ParsePathName | packages/express-backend/services/restaurant-service.js:36-50 | the dotted key the builder writes for a field or a group entry reads back as that same field |
| RestaurantService.SortOptions | packages/express-backend/services/restaurant-service.js:11 | the sort is ascending exactly when sortOrder is "asc"; an absent sortField names no restaurant field |
| RestaurantService.BeforeTotal | packages/express-backend/services/restaurant-service.js:54 | any two restaurants are comparable under the sort options (ties included) |
| RestaurantService.BeforeTrans | packages/express-backend/services/restaurant-service.js:54 | the sort order is transitive, in both directions and across value types |
| RestaurantService.InsertSorted | packages/express-backend/services/restaurant-service.js:54 | inserting into a sorted list keeps it sorted |
| RestaurantService.SortBy | packages/express-backend/services/restaurant-service.js:54 | sorting permutes the restaurants: same multiset, same length |
| RestaurantService.SortBySorted | packages/express-backend/services/restaurant-service.js:54 | the sorted list is ordered by the sort field in the requested direction |
| RestaurantService.SortKeyOf | packages/express-backend/services/restaurant-service.js:11 | a field string naming no modelled path gives every restaurant the missing key; a top-level field is never missing |
| RestaurantService.DocumentedSortFields | packages/express-backend/backend.js:226-233 | sorting by name, price or avg_rating orders by the restaurant's own value |
| RestaurantService.SortByNoFieldKeepsOrder | packages/express-backend/services/restaurant-service.js:54 | sorting on a field every restaurant lacks (a key naming no modelled path, or a group entry none of them has) keeps the natural order |
| RestaurantService.Find | packages/express-backend/services/restaurant-service.js:54 | the store's find fails exactly for a non-string regex; otherwise it returns, sorted, a permutation of the matching restaurants, and exactly those |
| RestaurantService.SortedMembers | packages/express-backend/services/restaurant-service.js:54 | the sorted result holds exactly the restaurants that match the query |
| RestaurantService.AddEntries | packages/express-backend/services/restaurant-service.js:33-51 | one forEach adds one key per JSON entry under that group only, with the entry's value (a regex for hours); every other key keeps its condition |
| RestaurantService.BuildTopQuery | packages/express-backend/services/restaurant-service.js:10-32 | the top-level keys present are exactly those whose filter is truthy (delivery only when true), each with its condition |
| RestaurantService.AddGroup | packages/express-backend/services/restaurant-service.js:33-52 | one guarded group block adds exactly the selected keys of that group, given a query already covering the other blocks |
| RestaurantService.BuildQuery | packages/express-backend/services/restaurant-service.js:10-52 | the finished query holds exactly the selected keys with their conditions |
| RestaurantService.ValidIffHoursStrings | packages/express-backend/services/restaurant-service.js:47-51 | the built query is accepted by the store exactly when every hours pattern is a string |
| RestaurantService.MatchesIffAdmits | packages/express-backend/services/restaurant-service.js:10-54 | a restaurant matches the built query exactly when it satisfies every filter: complex id, case-insensitive name and cuisine, rating at least the bound, delivery, price, each named payment, nutrition and hours entry |
| RestaurantService.GetRestaurants | packages/express-backend/services/restaurant-service.js:9-55 | fails exactly for non-string hours patterns; otherwise returns exactly the admitted restaurants, as a permutation of them, sorted by the options with "asc" as the default order |
| RestaurantService.NoFiltersEmptyQuery | packages/express-backend/services/restaurant-service.js:10-52 | without filters and without a complex id the query is empty |
| RestaurantService.EmptyQueryReturnsAll | packages/express-backend/services/restaurant-service.js:54 | the empty query with the default sort returns every restaurant in natural order |
| RestaurantService.DeliveryFalseAddsNothing | packages/express-backend/services/restaurant-service.js:25-28 | delivery=false builds the same query as no delivery filter |
| RestaurantService.UnmentionedPaymentFree | packages/express-backend/services/restaurant-service.js:33-39 | changing a payment flag the filter does not name never changes whether a restaurant is admitted |
| RestaurantService.GetRestaurantById | packages/express-backend/services/restaurant-service.js:4-6 | returns a restaurant of the collection with that id, and none exactly when no restaurant has it |
| ReviewModel.Missing | packages/express-backend/models/review.js:5-45 | a field is reported missing exactly when absent (item and review also when blank after trimming) |
| ReviewModel.MissingIffAbsent | packages/express-backend/models/review.js:5-45 | the reported set is exactly the required fields a draft lacks |
| ReviewModel.Create | packages/express-backend/models/review.js:3-48 | validation fails exactly when a required field is missing and reports those fields; otherwise the stored review has the given data, trimmed item, body and pictures, and the current time as the default date |
| ReviewModel.CreatedTextIsTrimmed | packages/express-backend/models/review.js:6-16 | a stored item and body neither start nor end with white space |
| ReviewModel.AnyRatingAccepted | packages/express-backend/models/review.js:18-21 | any present rating, out of 1–5 included, passes validation |
| ReviewService.PostReview | packages/express-backend/services/review-service.js:4-7 | an invalid draft or a duplicate _id fails and leaves the reviews unchanged; otherwise exactly the created review is appended |
| ReviewService.PostWithoutIdCannotCollide | packages/express-backend/services/review-service.js:4-7 | a valid draft without its own _id gets the fresh id and never collides |
| ReviewService.AfterDelete | packages/express-backend/services/review-service.js:10-19 | the collection loses exactly one review when one with that id and author exists, and is otherwise unchanged; nothing is added |
| ReviewService.DeleteReview | packages/express-backend/services/review-service.js:10-19 | fails exactly when no review has that id and author; otherwise returns that review and removes the review found by id |
| ReviewService.RemoveAtUnique | packages/express-backend/services/review-service.js:18 | removing a review keeps ids unique and keeps every review with another id |
| ReviewService.DeleteReviewSpec | packages/express-backend/services/review-service.js:10-19 | a non-author or unknown id leaves the collection unchanged; the author's delete removes exactly that review |
| ReviewService.GetReviewsByRestaurant | packages/express-backend/services/review-service.js:22-27 | returns exactly the reviews of that restaurant |
| ReviewService.ReviewsByRestaurantAppend | packages/express-backend/services/review-service.js:22-27 | listing is piecewise over the collection, so store order is kept |
| ReviewService.PostedReviewIsListed | packages/express-backend/services/review-service.js:4-27 | a newly posted review appears last in its restaurant's listing |
| AccountService.AccountIndex | packages/express-backend/services/account-service.js:30 | findById finds an account with that id, or reports that none exists |
| AccountService.AddFavorite | packages/express-backend/services/account-service.js:31-33 | the old list is kept as a prefix, at most one entry is added, and the ids present are the old ones plus the new one |
| AccountService.RemoveFavorite | packages/express-backend/services/account-service.js:41-43 | the ids present are exactly the old ones other than the removed id, and nothing is added |
| AccountService.AddFavoriteIdempotent | packages/express-backend/services/account-service.js:31 | adding a present favourite changes nothing; adding twice is adding once |
| AccountService.AddFavoriteAppends | packages/express-backend/services/account-service.js:31-33 | adding an absent favourite appends it; earlier entries keep their places |
| AccountService.AddFavoriteNoDuplicates | packages/express-backend/services/account-service.js:31-33 | a duplicate-free favourites list stays duplicate-free |
| AccountService.RemoveFavoriteCounts | packages/express-backend/services/account-service.js:41-43 | removal drops every occurrence of the id and keeps every other id as often as before |
| AccountService.RemoveFavoriteKeepsOrder | packages/express-backend/services/account-service.js:41-43 | removal works piecewise, so the remaining entries keep their order |
| AccountService.RemoveAbsentFavorite | packages/express-backend/services/account-service.js:41-43 | removing an id that is not a favourite changes nothing |
| AccountService.UpdateFavoritesValid | packages/express-backend/services/account-service.js:29-46 | rewriting favourites keeps every account's id and e-mail, so uniqueness holds |
| AccountService.AddFavoriteRestaurant | packages/express-backend/services/account-service.js:29-36 | fails exactly when the account is missing; otherwise only that account's favourites change, by add-if-absent, and the account is returned |
| AccountService.RemoveFavoriteRestaurant | packages/express-backend/services/account-service.js:39-46 | fails exactly when the account is missing; otherwise only that account's favourites change, by remove-all-occurrences |
| AccountService.GetAccountReviews | packages/express-backend/services/account-service.js:15-17 | returns exactly the reviews the account wrote |
| AccountService.GetFavoriteRestaurants | packages/express-backend/services/account-service.js:20-26 | fails when the account is missing; otherwise returns exactly the restaurants whose id is a favourite |
| AccountService.FavoriteRestaurantsDistinct | packages/express-backend/services/account-service.js:20-26 | each favourite restaurant is listed at most once |
| AccountService.AccountsWithout | packages/express-backend/services/account-service.js:49 | one account is removed exactly when one has the id, and none is added; without one the accounts are unchanged |
| AccountService.ReviewsWithout | packages/express-backend/services/account-service.js:50 | no review by the account remains, and nothing is added |
| AccountService.AccountsWithoutSpec | packages/express-backend/services/account-service.js:49 | after deletion the account is gone and every other account remains |
| AccountService.ReviewsWithoutSpec | packages/express-backend/services/account-service.js:50 | after deletion no review by the account remains and every other author's review is kept |
| AccountService.DeleteAccount | packages/express-backend/services/account-service.js:48-53 | removes the account and then its reviews, leaves restaurants alone, and keeps the store valid |
| Auth.BearerToken | packages/express-backend/auth.js:23-25 | a token is only found in a non-empty header, is non-empty and contains no space |
| Auth.BearerTokenOfScheme | packages/express-backend/auth.js:23-25 | the token of "scheme token", and of "scheme token rest" whatever the rest, is the second word |
| Auth.NoTokenWithoutSecondWord | packages/express-backend/auth.js:25-29 | a one-word header, or one whose second word is empty (the scheme followed by a space that ends the header or by a second space), carries no token |
| Auth.EmptyBearerHasNoToken | packages/express-backend/auth.js:25-29 | the header "Bearer ", sent by a client whose stored token is empty, carries no token |
| Auth.Authenticate | packages/express-backend/auth.js:22-40 | the request passes exactly when a token is found and verifies; otherwise the answer is 401 with no body |
| Auth.RegisterUser | packages/express-backend/auth.js:42-67 | missing input gives 400 and a taken e-mail 409, both leaving the store unchanged; otherwise exactly one account with that e-mail, the hashed password and no favourites is added and 201 carries the token |
| Auth.AppendAccountValid | packages/express-backend/auth.js:57-58 | adding an account with a new id and a new e-mail keeps both unique |
| Auth.Login | packages/express-backend/auth.js:69-87 | 200 with a token only for an account with that e-mail and matching hash; every failure is the same 401 "Unauthorized" |
| Auth.LoginSucceedsIff | packages/express-backend/auth.js:72-85 | with unique e-mails, login succeeds exactly when the account exists and the password's hash is the stored one |
| Auth.RegisterThenLogin | packages/express-backend/auth.js:42-87 | after registering, login with that password succeeds and, for an injective hash, any other password fails |
| Auth.RegisterAsWritten | packages/express-backend/auth.js:42-67 | as written, the first attempted status is 400 exactly for a falsy e-mail or password, and then a second send is attempted; an account is inserted exactly when the lookup finds none and a password, even an empty one, is present |
| Auth.RegisterAsWrittenRespondsTwice | packages/express-backend/auth.js:45-66 | as written, missing input is always followed by a second attempted send (409, 201 or 500), which Express refuses; an empty password or a missing e-mail still inserts an account after the 400 |
| Upload.LastIndexOfAt | packages/express-backend/uploadMiddleware.js:17 | the last occurrence of a character is the one with none after it |
| Upload.ExtNameIsSuffix | packages/express-backend/uploadMiddleware.js:17 | a non-empty extension is a proper suffix of the base name |
| Upload.StoredFileName | packages/express-backend/uploadMiddleware.js:15-18 | behind a non-empty suffix free of `.` and `/`, the stored name has the original file's extension |
| Upload.StoredFileKeepsExtension | packages/express-backend/uploadMiddleware.js:16-17 | the name built from the time stamp, a `-` and the random number has the original file's extension |
| Upload.FileFilter | packages/express-backend/uploadMiddleware.js:22-31 | a file passes only with an extension of at least four characters, the `.` and an allowed type |
| Upload.FileFilterNeedsExtension | packages/express-backend/uploadMiddleware.js:22-31 | a file without an extension is refused whatever its MIME type |
| Upload.AllowedTypeUnanchored | packages/express-backend/uploadMiddleware.js:23-25 | the type test is unanchored: a text passes exactly when it contains one of jpeg, jpg, png or heic anywhere |
| Upload.ConvertHeicToJpeg | packages/express-backend/uploadMiddleware.js:36-55 | no file or a non-HEIC extension changes nothing; a HEIC path has its first ".heic" replaced by ".jpeg" and its file name reset to that base name; a failed conversion gives 500 and changes nothing |
| Upload.UpperCaseHeicKeepsPath | packages/express-backend/uploadMiddleware.js:40-43 | every path that passes the extension test without holding ".heic" literally has a non-lower-case extension and is its own target path |
| Upload.UpperCaseHeicExample | packages/express-backend/uploadMiddleware.js:40-43 | "IMG.HEIC" passes the extension test and does not hold ".heic" |
| Backend.Kept | packages/express-backend/backend.js:164-184 | an absent or empty parameter is dropped; a truthy one is kept as given |
| Backend.Parsed | packages/express-backend/backend.js:185-212 | a truthy JSON parameter is replaced by its parse; an absent or empty one is dropped |
| Backend.FiltersOf | packages/express-backend/backend.js:164-212 | delivery is set exactly for a truthy parameter and is true exactly for "true"; the rating bound is set exactly for a truthy minRating, as its parseFloat |
| Backend.FirstMalformed | packages/express-backend/backend.js:185-212 | the reported field is the first unparseable one in the order accepted_payments, nutrition_types, hours |
| Backend.ExtractFilters | packages/express-backend/backend.js:164-212 | fails exactly when a JSON parameter is malformed, naming the first; otherwise yields the filters above |
| Backend.EmptyParamsAddNothing | packages/express-backend/backend.js:164-212 | with every parameter absent or empty the filters are empty |
| Backend.SortOrderOrDefault | packages/express-backend/backend.js:215 | an absent or empty sortOrder becomes "asc" |
| Backend.MissingSortOrderAscends | packages/express-backend/backend.js:215 | without a sort order the listing is ascending |
| Backend.GetComplexRestaurants | packages/express-backend/backend.js:149-224 | 400 naming the first malformed field, and the service is not reached; non-string hours give 500; otherwise 200 with exactly the admitted restaurants of the complex, sorted |
| Backend.WithAuthor | packages/express-backend/backend.js:41-44 | the author becomes the caller and every other field is the body's |
| Backend.PostedReviewAuthoredByCaller | packages/express-backend/backend.js:40-50 | a posted review never lacks an author, and its author is the caller whatever the body says |
| Backend.PostReviewRoute | packages/express-backend/backend.js:40-50 | 201 with the stored review by the caller, appended to the reviews; otherwise 500 and no change |
| Backend.DeleteReviewRoute | packages/express-backend/backend.js:53-62 | 200 exactly when the caller wrote a review with that id; otherwise 500 |
| Backend.AccountReviewsRoute | packages/express-backend/backend.js:75-82 | 200 with exactly the caller's reviews |
| Backend.FavoritesRoute | packages/express-backend/backend.js:85-92 | 200 with exactly the favourite restaurants when the account exists, else 500 |
| Backend.AddFavoriteRoute | packages/express-backend/backend.js:95-106 | 201 with the updated account exactly when the account exists, else 500 |
| Backend.RemoveFavoriteRoute | packages/express-backend/backend.js:109-122 | 204 exactly when the account exists, else 500 |
| Backend.DeleteAccountRoute | packages/express-backend/backend.js:125-132 | always 204, with the account and its reviews deleted |
| Backend.RestaurantRouteAsWritten | packages/express-backend/backend.js:235-250 | as written, the route answers 500 and never a restaurant page |
| Backend.RestaurantRouteAsWrittenFails | packages/express-backend/backend.js:235-250 | as written, even an existing restaurant is answered with 500, where the intended route answers 200 |
| Backend.RestaurantRoute | packages/express-backend/backend.js:235-250 | 404 exactly when no restaurant has the id; otherwise 200 with that restaurant and exactly its reviews |

## Left out

- I/O, the network, the database connection, `app.listen` and `dotenv`. These are abstracted as an in-memory `Store.Database` whose collections are sequences in natural order. The `console.log` calls of `authenticateUser` (`auth.js:28`, `auth.js:35`) are dropped.
- The module wiring of `backend.js`. Line 12 imports a default export from `auth.js`, which has only the named exports at lines 22, 42 and 69, and line 34 mounts it with `app.use("/auth", authRoutes)`. As written the server would not load, so no route would be served. The route members, and the `backend.js:239` finding, describe the handlers as if `backend.js` loaded.
- Concurrency. Every service call runs to completion, so the interleavings of the awaited steps (for example between the two deletions in `deleteAccount`) are out of scope.
- `bcrypt` is a function parameter.
  - Salting is abstracted: equal passwords hash alike.
  - `bcrypt.compare` is modelled as equality of hashes.
- `jwt.sign` and `jwt.verify` are function parameters. A signing failure would leave a request unanswered and is not modelled.
- `Auth.RegisterUser`: requires the generated `_id` to be new, as ObjectId generation guarantees. A failing `save` in registration is not caught by the code and would leave the request unanswered.
- `ReviewService.PostReview` and `Backend.PostReviewRoute`: require the generated `_id` to be new, for the same reason. A client-supplied `_id` may still collide, and that is modelled.
- RegisterAsWrittenRespondsTwice: gives the statuses the handler attempts to send. Express's `ERR_HTTP_HEADERS_SENT` on the second send, and the unhandled rejection it causes, are not modelled beyond saying that only the first status reaches the client.
- `Auth.Login`: e-mail and password are strings. A login body lacking them, where `bcrypt.compare` rejects and no response is sent, is not modelled.
- The account schema declares no fields. The model stores the e-mail, password and favourites the services use, and ignores Mongoose's strict mode, which would drop them. `Auth.RegisterUser` starts a new account with an empty favourites list, whereas `auth.js:57` saves it with no `favorites` field at all; on such an account `account.favorites.includes` (`account-service.js:31`) and `account.favorites.filter` (`account-service.js:41`) would throw, and the query `{ $in: ….favorites }` (`account-service.js:23`) would be rejected, since `$in` needs an array; the model does not capture that.
- `getAccountDetails` and the `/account/details` and `/complexes` routes. These are `populate` lookups with no logic; `complex-service.js` is not part of this model.
- Average-rating recomputation, e-mail verification, the cleanup of unverified accounts, the e-mail domain check and media cleanup. No code for them exists in the backend files.
- The React frontend, the end-to-end test, the cloud storage adapters and the mail modules.
- `Object.keys` on a JSON array or string (the index keys), dotted or operator keys inside JSON filters, and JSON key order.
- Query parameters given more than once (arrays) and non-string body fields: parameters are absent or one string.
- Regular expressions: `$regex` patterns and the `fileFilter` pattern are read as literal substrings. Case folding covers ASCII letters only.
- `parseFloat` returning an infinity. A parsed number is NaN or a finite real.
- GetRestaurants and SortKeyOf: a `sortField` is read only as one of the modelled restaurant paths (the top-level fields and the entries of `accepted_payments`, `nutrition_types` and `hours`). Any other string gives every restaurant the missing key, so the result keeps natural order. MongoDB differs there: it sorts by a whole embedded document (`hours`, `accepted_payments`, `nutrition_types`), sorts by a stored field the `Restaurant` record omits (such as `image`), rejects an empty or malformed field path (`?sortField=`, which the route would answer with 500), and reverses natural order for `$natural` with `desc`.
- GetReviewsByRestaurant and `Backend.RestaurantRoute`: `.populate("author", "firstname lastname")` (`review-service.js:25`) is not modelled. A listed review carries the author's id, not the author's names that the restaurant page reads (`RestaurantDetails.jsx:98`); accounts in the model have no name fields.
- `ReviewModel.Create` and `Backend.PostReviewRoute`: the rating arrives as a number. The front end posts the number input's string (`Reviews.jsx:38`); Mongoose casts a numeric string such as "4" and fails a non-numeric one with a cast error, which the route would answer with 500. Neither cast is modelled.
- The store's order among restaurants with equal sort keys. The model sorts stably, so ties keep natural order; MongoDB does not promise that.
- ObjectId casting: ids are compared as strings, so `fav.toString()` and a raw id compare alike.
- The `Date.now()`/`Math.random` part of stored file names is a parameter, as is the conversion's success. sharp's handling of a target path equal to its source is outside the model.
- Windows path rules: `path` follows its POSIX variant.

## Findings

| source | as written | input that shows it | evidently intended | confidence | as-written member | corrected member |
|---|---|---|---|---|---|---|
| packages/express-backend/auth.js:45-47 | the 400 for missing input does not return, so the lookup and the insert still run and a second send is attempted | body `{ "password": "x" }` with no matching account: 400 sent, an account inserted, then a 201 send attempted; body `{ "calpoly_email": "a@b", "password": "" }`: the same with an empty password; a missing password with a taken e-mail: 400 sent, then a 409 send attempted | answer 400 and stop | high, not executed | Auth.RegisterAsWrittenRespondsTwice | Auth.RegisterUser |
| packages/express-backend/backend.js:239 | the route calls `getRestaurantWithReviews`, which the restaurant service does not export, so, with the server loaded, every request to the handler throws and gets 500 | GET `/restaurant/<id of an existing restaurant>` | 200 with the restaurant and its reviews, 404 when no restaurant has the id | high, not executed | Backend.RestaurantRouteAsWrittenFails | Backend.RestaurantRoute |
